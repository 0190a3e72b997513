/** router/expenses.py: recording expenses, listing them with optional date-range
    and category filters, and the monthly and top-category summaries. */
module Expenses {
  import opened Results
  import opened Text
  import opened Dates
  import opened ObjectIds
  import opened Grouping
  import opened Database
  import opened Serializers

  /** A request body of `POST /expenses/` once the framework has validated it. */
  datatype NewExpense = NewExpense(amount: int, category: string, date: ValidDateTime, description: string)

  /** The document `add_expense` inserts: the body with its category stripped and
      capitalised, and no owner. */
  function ExpenseDocOf(id: ObjectId, e: NewExpense): ExpenseDoc {
    ExpenseDoc(id, None, e.amount, NormalizeName(e.category), Some(e.date), Some(e.description))
  }

  /** `POST /expenses/`: stores the expense under a fresh ObjectId and answers with
      that id's string. */
  method AddExpense(db: Db, e: NewExpense) returns (id: string)
    requires db.Valid()
    modifies db`expenses, db`nextId
    ensures db.Valid()
    ensures db.expenses == old(db.expenses) + [ExpenseDocOf(old(db.nextId), e)]
    ensures db.nextId == old(db.nextId) + 1
    ensures id == IdString(old(db.nextId))
    ensures forall i :: 0 <= i < |old(db.expenses)| ==> old(db.expenses)[i].id != old(db.nextId)
  {
    var oid := db.NewId();
    db.expenses := db.expenses + [ExpenseDocOf(oid, e)];
    id := IdString(oid);
  }

  /** The filter `get_expenses` sends to the store: an inclusive datetime range and a
      case-insensitive whole-string category pattern, each optional. */
  datatype Query = Query(range: Option<(DateTime, DateTime)>, category: Option<string>)

  /** Python truthiness of an optional query string. */
  predicate Given(s: Option<string>) {
    s.Some? && s.value != ""
  }

  /** Builds the filter; a range is applied only when both bounds are given, and a
      bound `strptime` rejects is an error. */
  function BuildQuery(start: Option<string>, end: Option<string>, category: Option<string>): (r: Result<Query, ApiError>)
    ensures r.Err? <==> Given(start) && Given(end) && (ParseYmd(start.value).None? || ParseYmd(end.value).None?)
    ensures r.Ok? ==> (r.value.range.Some? <==> Given(start) && Given(end))
    ensures r.Ok? && r.value.range.Some? ==>
      Some(r.value.range.value.0) == ParseYmd(start.value) && Some(r.value.range.value.1) == ParseYmd(end.value)
    ensures r.Ok? ==> r.value.category == (if Given(category) then category else None)
  {
    var cat := if Given(category) then category else None;
    if Given(start) && Given(end) then
      match (ParseYmd(start.value), ParseYmd(end.value))
      case (Some(lo), Some(hi)) => Ok(Query(Some((lo, hi)), cat))
      case _ => Err(Internal("Something went wrong"))
    else Ok(Query(None, cat))
  }

  /** Whether a stored expense satisfies the filter. A document without a date is
      outside every range. */
  predicate Matches(d: ExpenseDoc, q: Query) {
    && (q.range.Some? ==> d.date.Some? && AtOrBefore(q.range.value.0, d.date.value) && AtOrBefore(d.date.value, q.range.value.1))
    && (q.category.Some? ==> EqualsIgnoreCase(d.category, q.category.value))
  }

  /** The documents `find(query)` yields, in store order. */
  function Filter(store: seq<ExpenseDoc>, q: Query): (r: seq<ExpenseDoc>)
    ensures |r| <= |store|
  {
    if store == [] then []
    else
      var init, last := store[..|store| - 1], store[|store| - 1];
      assert store == init + [last];
      Filter(init, q) + (if Matches(last, q) then [last] else [])
  }

  /** `find(query)` lists exactly the stored documents that match the query. */
  lemma {:induction false} FilterMembers(store: seq<ExpenseDoc>, q: Query)
    ensures forall d :: d in Filter(store, q) <==> d in store && Matches(d, q)
    decreases |store|
  {
    if store != [] {
      var init, last := store[..|store| - 1], store[|store| - 1];
      FilterMembers(init, q);
      assert store == init + [last];
    }
  }

  /** An empty filter keeps every document, in order. */
  lemma {:induction false} FilterAll(store: seq<ExpenseDoc>, q: Query)
    requires forall i :: 0 <= i < |store| ==> Matches(store[i], q)
    ensures Filter(store, q) == store
  {
    if store != [] {
      FilterAll(store[..|store| - 1], q);
      assert store == store[..|store| - 1] + [store[|store| - 1]];
    }
  }

  /** Filtering a concatenation filters each part and keeps the parts in order; with
      `FilterOne` this fixes the result to the matching documents in store order, each
      as often as it is stored. */
  lemma {:induction false} FilterAppend(a: seq<ExpenseDoc>, b: seq<ExpenseDoc>, q: Query)
    ensures Filter(a + b, q) == Filter(a, q) + Filter(b, q)
    decreases |b|
  {
    if b == [] {
      assert a + b == a;
    } else {
      var init, last := b[..|b| - 1], b[|b| - 1];
      var tail := if Matches(last, q) then [last] else [];
      var ab := a + b;
      assert ab[..|ab| - 1] == a + init;
      assert ab[|ab| - 1] == last;
      assert Filter(ab, q) == Filter(a + init, q) + tail;
      assert Filter(b, q) == Filter(init, q) + tail;
      FilterAppend(a, init, q);
      assert Filter(ab, q) == Filter(a, q) + Filter(init, q) + tail;
    }
  }

  /** One document is listed exactly when it matches. */
  lemma FilterOne(d: ExpenseDoc, q: Query)
    ensures Filter([d], q) == if Matches(d, q) then [d] else []
  {
    assert [d][..0] == [];
  }

  function SerializeAll(docs: seq<ExpenseDoc>): (r: seq<ExpenseView>)
    ensures |r| == |docs|
    ensures forall i :: 0 <= i < |docs| ==> r[i] == ExpenseSerializer(docs[i])
  {
    seq(|docs|, i requires 0 <= i < |docs| => ExpenseSerializer(docs[i]))
  }

  /** `GET /expenses/`: the serialised documents matching the filter, or the 500
      "Something went wrong" when a range bound does not parse. */
  function GetExpenses(store: seq<ExpenseDoc>, start: Option<string>, end: Option<string>, category: Option<string>): (r: Result<seq<ExpenseView>, ApiError>)
    ensures r.Err? <==> Given(start) && Given(end) && (ParseYmd(start.value).None? || ParseYmd(end.value).None?)
    ensures r.Err? ==> r.error == Internal("Something went wrong")
    ensures r.Ok? ==> |r.value| <= |store|
  {
    match BuildQuery(start, end, category)
    case Err(_) => Err(Internal("Something went wrong"))
    case Ok(q) => Ok(SerializeAll(Filter(store, q)))
  }

  /** Whether `get_expenses` lists a document, read off the query strings: dated within
      both bounds, inclusive, when both are given, and of the category in any letter
      case when one is given. */
  predicate Selected(d: ExpenseDoc, start: Option<string>, end: Option<string>, category: Option<string>) {
    && (Given(start) && Given(end) ==>
          match (ParseYmd(start.value), ParseYmd(end.value))
          case (Some(lo), Some(hi)) => d.date.Some? && AtOrBefore(lo, d.date.value) && AtOrBefore(d.date.value, hi)
          case _ => false)
    && (Given(category) ==> EqualsIgnoreCase(d.category, category.value))
  }

  /** The listing is the serialisation, in store order, of the stored documents the
      query strings select, and of no others. */
  lemma GetExpensesSpec(store: seq<ExpenseDoc>, start: Option<string>, end: Option<string>, category: Option<string>)
    requires GetExpenses(store, start, end, category).Ok?
    ensures var kept := Filter(store, BuildQuery(start, end, category).value);
      && GetExpenses(store, start, end, category).value == SerializeAll(kept)
      && forall d :: d in kept <==> d in store && Selected(d, start, end, category)
  {
    var q := BuildQuery(start, end, category).value;
    FilterMembers(store, q);
    forall d | d in store
      ensures Matches(d, q) <==> Selected(d, start, end, category)
    {
      if Given(start) && Given(end) {
        assert q.range == Some((ParseYmd(start.value).value, ParseYmd(end.value).value));
      }
    }
  }

  /** With no range (or only one bound) and no category, every stored expense is listed in store order. */
  lemma NoFilterListsAll(store: seq<ExpenseDoc>, start: Option<string>, end: Option<string>, category: Option<string>)
    requires !(Given(start) && Given(end)) && !Given(category)
    ensures GetExpenses(store, start, end, category) == Ok(SerializeAll(store))
  {
    FilterAll(store, Query(None, None));
  }

  /** A category stored from `c` is found by a query naming it in any letter case and
      without its surrounding white space. */
  lemma CategoryFoundInAnyCase(c: string, asked: string)
    requires Lower(asked) == Lower(Strip(c))
    ensures EqualsIgnoreCase(NormalizeName(c), asked)
  {
    LowerOfNormalizedName(c);
  }

  /** An expense dated later on the end day of a range is not listed: `strptime`
      reads the end bound as midnight. */
  lemma EndDayIsExclusiveAfterMidnight(d: ExpenseDoc, q: Query, end: string)
    requires q.range.Some? && ParseYmd(end) == Some(q.range.value.1)
    requires d.date.Some? && StartOfDay(d.date.value) == q.range.value.1 && d.date.value.micros > 0
    ensures !Matches(d, q)
  {
  }

  // The monthly summary.

  datatype YearMonth = YearMonth(year: int, month: int)

  /** Every stored expense has a date, so `$year` and `$month` give numbers. */
  predicate AllDated(store: seq<ExpenseDoc>) {
    forall i :: 0 <= i < |store| ==> store[i].date.Some?
  }

  /** The (year and month, amount) pairs the `$group` stage of the summary reads. */
  function MonthPairs(store: seq<ExpenseDoc>): (r: seq<(YearMonth, int)>)
    requires AllDated(store)
    ensures |r| == |store|
    ensures forall i :: 0 <= i < |store| ==> r[i] == (YearMonth(store[i].date.value.year, store[i].date.value.month), store[i].amount)
  {
    seq(|store|, i requires 0 <= i < |store| => (YearMonth(store[i].date.value.year, store[i].date.value.month), store[i].amount))
  }

  /** The sort key of `{"_id.year": -1, "_id.month": -1}`. */
  function MonthRank(b: Bucket<YearMonth>): int {
    b.key.year * 12 + b.key.month
  }

  /** The aggregation's output documents. */
  function MonthlyGroups(store: seq<ExpenseDoc>): seq<Bucket<YearMonth>>
    requires AllDated(store)
  {
    SortDesc(GroupSum(MonthPairs(store)), MonthRank)
  }

  /** `later` comes after `earlier` in the calendar. */
  predicate LaterMonth(later: YearMonth, earlier: YearMonth) {
    later.year > earlier.year || (later.year == earlier.year && later.month > earlier.month)
  }

  predicate ValidMonth(m: YearMonth) {
    1 <= m.year <= 9999 && 1 <= m.month <= 12
  }

  /** Each bucket of the monthly aggregation is the month of some expense and holds
      that month's total. */
  lemma MonthlyTotals(store: seq<ExpenseDoc>)
    requires AllDated(store)
    ensures var g := MonthlyGroups(store);
      forall i :: 0 <= i < |g| ==>
        && ValidMonth(g[i].key)
        && g[i].total == SumFor(MonthPairs(store), g[i].key)
        && exists k :: 0 <= k < |store| && g[i].key == YearMonth(store[k].date.value.year, store[k].date.value.month)
  {
    var ps := MonthPairs(store);
    var g := MonthlyGroups(store);
    RankedGroups(ps, MonthRank);
    FirstsIndex(ps);
    forall i | 0 <= i < |g|
      ensures ValidMonth(g[i].key)
      ensures exists k :: 0 <= k < |store| && g[i].key == YearMonth(store[k].date.value.year, store[k].date.value.month)
    {
      var k :| 0 <= k < |ps| && Firsts(ps)[k] == g[i].key;
      assert g[i].key == YearMonth(store[k].date.value.year, store[k].date.value.month);
    }
  }

  /** Every month in which an expense is dated has a bucket. */
  lemma MonthlyCovers(store: seq<ExpenseDoc>)
    requires AllDated(store)
    ensures var g := MonthlyGroups(store);
      forall i :: 0 <= i < |store| ==>
        exists j :: 0 <= j < |g| && g[j].key == YearMonth(store[i].date.value.year, store[i].date.value.month)
  {
    var ps := MonthPairs(store);
    RankedGroups(ps, MonthRank);
    FirstsIndex(ps);
    var g := MonthlyGroups(store);
    forall i | 0 <= i < |store|
      ensures exists j :: 0 <= j < |g| && g[j].key == YearMonth(store[i].date.value.year, store[i].date.value.month)
    {
      assert Firsts(ps)[i] == ps[i].0;
      assert ps[i].0 in Firsts(ps);
    }
  }

  /** The buckets run from the newest month to the oldest, each month once. */
  lemma MonthlyNewestFirst(store: seq<ExpenseDoc>)
    requires AllDated(store)
    ensures var g := MonthlyGroups(store);
      forall i, j :: 0 <= i < j < |g| ==> LaterMonth(g[i].key, g[j].key)
  {
    var g := MonthlyGroups(store);
    RankedGroups(MonthPairs(store), MonthRank);
    MonthlyTotals(store);
    forall i, j | 0 <= i < j < |g|
      ensures LaterMonth(g[i].key, g[j].key)
    {
      assert MonthRank(g[i]) >= MonthRank(g[j]);
    }
  }

  /** `f"{year}-{month:02d}"`. */
  function MonthLabel(m: YearMonth): string
    requires ValidMonth(m)
  {
    Decimal(m.year as nat) + "-" + Pad2(m.month as nat)
  }

  /** Different months get different labels. */
  lemma MonthLabelInjective(a: YearMonth, b: YearMonth)
    requires ValidMonth(a) && ValidMonth(b) && MonthLabel(a) == MonthLabel(b)
    ensures a == b
  {
    var ya, yb := Decimal(a.year as nat), Decimal(b.year as nat);
    var l := MonthLabel(a);
    assert |l| == |ya| + 3 == |yb| + 3;
    assert l[..|ya|] == ya && MonthLabel(b)[..|yb|] == yb;
    DecimalInjective(a.year as nat, b.year as nat);
    assert l[|ya| + 1..] == Pad2(a.month as nat) && MonthLabel(b)[|yb| + 1..] == Pad2(b.month as nat);
    Pad2RoundTrip(a.month as nat);
    Pad2RoundTrip(b.month as nat);
  }

  datatype MonthTotal = MonthTotal(month: string, totalExpense: int)

  /** `GET /summary/monthly`. An expense without a date makes the aggregation group it
      under a null year and month, which the label's `:02d` format rejects: a 500. */
  method MonthlySummary(db: Db) returns (res: Result<seq<MonthTotal>, ApiError>)
    ensures !AllDated(db.expenses) ==> res == Err(Internal("Error: unsupported format string passed to NoneType.__format__"))
    ensures AllDated(db.expenses) ==> res.Ok? && var g := MonthlyGroups(db.expenses);
      && |res.value| == |g|
      && forall i :: 0 <= i < |g| ==> ValidMonth(g[i].key) && res.value[i] == MonthTotal(MonthLabel(g[i].key), g[i].total)
  {
    if !AllDated(db.expenses) {
      return Err(Internal("Error: unsupported format string passed to NoneType.__format__"));
    }
    var results := MonthlyGroups(db.expenses);
    MonthlyTotals(db.expenses);
    var summary: seq<MonthTotal> := [];
    for i := 0 to |results|
      invariant |summary| == i
      invariant forall j :: 0 <= j < i ==> summary[j] == MonthTotal(MonthLabel(results[j].key), results[j].total)
    {
      var item := results[i];
      var key := MonthLabel(item.key);
      summary := summary + [MonthTotal(key, item.total)];
    }
    return Ok(summary);
  }

  /** The summary names each month once. */
  lemma SummaryMonthsDistinct(store: seq<ExpenseDoc>)
    requires AllDated(store)
    ensures var g := MonthlyGroups(store);
      && (forall i :: 0 <= i < |g| ==> ValidMonth(g[i].key))
      && (forall i, j :: 0 <= i < j < |g| ==> MonthLabel(g[i].key) != MonthLabel(g[j].key))
  {
    var g := MonthlyGroups(store);
    MonthlyTotals(store);
    MonthlyNewestFirst(store);
    forall i, j | 0 <= i < j < |g|
      ensures MonthLabel(g[i].key) != MonthLabel(g[j].key)
    {
      if MonthLabel(g[i].key) == MonthLabel(g[j].key) {
        MonthLabelInjective(g[i].key, g[j].key);
        assert false;
      }
    }
  }

  // The top-categories summary.

  /** The (category, amount) pairs the `$group` stage reads. */
  function CategoryPairs(store: seq<ExpenseDoc>): (r: seq<(string, int)>)
    ensures |r| == |store|
    ensures forall i :: 0 <= i < |store| ==> r[i] == (store[i].category, store[i].amount)
  {
    seq(|store|, i requires 0 <= i < |store| => (store[i].category, store[i].amount))
  }

  function TotalRank(b: Bucket<string>): int {
    b.total
  }

  /** `GET /summary/top-categories`: group by category, sort by descending total,
      keep three. */
  function TopCategories(store: seq<ExpenseDoc>): seq<Bucket<string>> {
    Take(SortDesc(GroupSum(CategoryPairs(store)), TotalRank), 3)
  }

  /** At most three distinct categories, each the category of some expense and with
      the sum of its expenses, largest first. */
  lemma TopCategoriesSpec(store: seq<ExpenseDoc>)
    ensures var r := TopCategories(store);
      && |r| <= 3
      && (forall i, j :: 0 <= i < j < |r| ==> r[i].key != r[j].key)
      && (forall i :: 0 <= i < |r| ==> r[i].total == SumFor(CategoryPairs(store), r[i].key))
      && (forall i, j :: 0 <= i < j < |r| ==> r[i].total >= r[j].total)
      && (forall i :: 0 <= i < |r| ==> exists k :: 0 <= k < |store| && store[k].category == r[i].key)
  {
    var ps := CategoryPairs(store);
    var s := SortDesc(GroupSum(ps), TotalRank);
    var r := TopCategories(store);
    RankedGroups(ps, TotalRank);
    FirstsIndex(ps);
    assert r == s[..|r|];
    forall i | 0 <= i < |r|
      ensures exists k :: 0 <= k < |store| && store[k].category == r[i].key
    {
      assert r[i] == s[i];
      var k :| 0 <= k < |ps| && Firsts(ps)[k] == r[i].key;
      assert store[k].category == r[i].key;
    }
  }

  /** A category of the store left out of the top list spent no more than the third
      one listed, and three are listed. */
  lemma TopCategoriesCutoff(store: seq<ExpenseDoc>, i: nat)
    requires i < |store|
    requires forall j :: 0 <= j < |TopCategories(store)| ==> TopCategories(store)[j].key != store[i].category
    ensures |TopCategories(store)| == 3
    ensures SumFor(CategoryPairs(store), store[i].category) <= TopCategories(store)[2].total
  {
    var ps := CategoryPairs(store);
    var s := SortDesc(GroupSum(ps), TotalRank);
    var r := TopCategories(store);
    RankedGroups(ps, TotalRank);
    FirstsIndex(ps);
    assert r == s[..|r|];
    var c := store[i].category;
    assert Firsts(ps)[i] == c;
    assert c in Firsts(ps);
    var k :| 0 <= k < |s| && s[k].key == c;
    assert k >= |r|;
    assert TotalRank(s[2]) >= TotalRank(s[k]);
  }
}
