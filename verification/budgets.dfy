/** `budgetService`: monthly spending limits per category, stored in the
    `budget_c` table, plus the upsert keyed on (category, month, year). */
module Budgets {
  import opened Js
  import opened Store
  import opened Gateway

  const Table := "budget_c"

  /** Fields selected by every read except the upsert's search. */
  const Fields: seq<string> := ["Id", "Name", "category_c", "monthly_limit_c", "month_c", "year_c"]

  /** Fields selected by the upsert's search (no `Name`). */
  const SearchFields: seq<string> := ["Id", "category_c", "monthly_limit_c", "month_c", "year_c"]

  /** A row of `budget_c` as the store sends and receives it. */
  datatype BudgetRecord = BudgetRecord(
    Id: Option<int>,
    Name: Option<string>,
    category_c: Option<string>,
    monthly_limit_c: Option<int>,
    month_c: Option<string>,
    year_c: Option<int>)

  /** A budget as the pages see it; limits are in cents. */
  datatype Budget = Budget(
    Id: Option<int>,
    category: Option<string>,
    monthlyLimit: Option<int>,
    month: Option<string>,
    year: Option<int>)

  /** The mapping every read applies to a returned record. */
  function FromRecord(r: BudgetRecord): Budget {
    Budget(r.Id, r.category_c, r.monthly_limit_c, r.month_c, r.year_c)
  }

  /** The record `create`, `update` and `upsertBudget` send. Mapping it back
      restores every field that was written. */
  function ToRecord(id: Option<int>, category: Option<string>, monthlyLimit: Option<int>, month: Option<string>, year: Option<int>): (r: BudgetRecord)
    ensures FromRecord(r) == Budget(id, category, monthlyLimit, month, year)
    ensures r.Name == Some(Interpolate(category) + " Budget")
  {
    BudgetRecord(id, Some(Interpolate(category) + " Budget"), category, monthlyLimit, month, year)
  }

  /** Reading a record and writing the budget back reproduces the record,
      except that `Name` is recomputed from the category: the read mapping
      drops nothing but `Name`. */
  lemma RecordRoundTrip(r: BudgetRecord)
    ensures var b := FromRecord(r);
      ToRecord(b.Id, b.category, b.monthlyLimit, b.month, b.year) == r.(Name := Some(Interpolate(r.category_c) + " Budget"))
  {
  }

  function GetAll(resp: FetchResponse<BudgetRecord>): (c: Call<seq<Budget>, BudgetRecord>)
    ensures c.requests == [FetchRecords(Table, Query(Fields, [], []))]
    ensures ListSpec(resp, FromRecord, true, c.result, c.notices)
  {
    var o := ListOutcome(resp, FromRecord, true);
    Call([FetchRecords(Table, Query(Fields, [], []))], o.result, o.notices)
  }

  function GetById(id: int, resp: RecordResponse<BudgetRecord>): (c: Call<Option<Budget>, BudgetRecord>)
    ensures c.requests == [GetRecordById(Table, id, Query(Fields, [], []))]
    ensures GetSpec(resp, FromRecord, c.result, c.notices)
  {
    var o := GetOutcome(resp, FromRecord);
    Call([GetRecordById(Table, id, Query(Fields, [], []))], o.result, o.notices)
  }

  function Create(b: Budget, resp: RecordResponse<BudgetRecord>): (c: Call<Option<Budget>, BudgetRecord>)
    ensures c.requests == [CreateRecord(Table, [ToRecord(None, b.category, b.monthlyLimit, b.month, b.year)])]
    ensures WriteSpec(resp, FromRecord, c.result, c.notices)
  {
    var o := WriteOutcome(resp, FromRecord);
    Call([CreateRecord(Table, [ToRecord(None, b.category, b.monthlyLimit, b.month, b.year)])], o.result, o.notices)
  }

  function Update(id: int, b: Budget, resp: RecordResponse<BudgetRecord>): (c: Call<Option<Budget>, BudgetRecord>)
    ensures c.requests == [UpdateRecord(Table, [ToRecord(Some(id), b.category, b.monthlyLimit, b.month, b.year)])]
    ensures WriteSpec(resp, FromRecord, c.result, c.notices)
  {
    var o := WriteOutcome(resp, FromRecord);
    Call([UpdateRecord(Table, [ToRecord(Some(id), b.category, b.monthlyLimit, b.month, b.year)])], o.result, o.notices)
  }

  function Delete(id: int, resp: RecordResponse<BudgetRecord>): (c: Call<bool, BudgetRecord>)
    ensures c.requests == [DeleteRecord(Table, [id])]
    ensures DeleteSpec(resp, c.result, c.notices)
  {
    var o := DeleteOutcome(resp);
    Call([DeleteRecord(Table, [id])], o.result, o.notices)
  }

  /** Budgets whose `month_c` equals `monthYear`; a rejected envelope is
      silent. An absent argument is sent as `undefined`. */
  function GetByMonth(monthYear: Option<string>, resp: FetchResponse<BudgetRecord>): (c: Call<seq<Budget>, BudgetRecord>)
    ensures c.requests == [FetchRecords(Table, Query(Fields, [Condition("month_c", EqualTo, [TextValue(monthYear)])], []))]
    ensures ListSpec(resp, FromRecord, false, c.result, c.notices)
  {
    var o := ListOutcome(resp, FromRecord, false);
    Call([FetchRecords(Table, Query(Fields, [Condition("month_c", EqualTo, [TextValue(monthYear)])], []))], o.result, o.notices)
  }

  // ---------------------------------------------------------------------
  // upsertBudget
  // ---------------------------------------------------------------------

  /** The search for an existing budget: all three key fields EqualTo the
      arguments as given, an absent argument included. It selects no `Name`. */
  function SearchQuery(category: Option<string>, month: Option<string>, year: Option<int>): (q: Query)
    ensures q.fields == SearchFields && "Name" !in q.fields && q.orderBy == []
    ensures |q.where| == 3
    ensures forall i :: 0 <= i < |q.where| ==> q.where[i].operator == EqualTo && |q.where[i].values| == 1
    ensures q.where[0].fieldName == "category_c" && q.where[1].fieldName == "month_c" && q.where[2].fieldName == "year_c"
    ensures category.Some? ==> q.where[0].values == [Text(category.value)]
    ensures category.None? ==> q.where[0].values == [Undefined]
    ensures month.Some? ==> q.where[1].values == [Text(month.value)]
    ensures month.None? ==> q.where[1].values == [Undefined]
    ensures year.Some? ==> q.where[2].values == [Number(year.value)]
    ensures year.None? ==> q.where[2].values == [Undefined]
  {
    Query(SearchFields,
          [Condition("category_c", EqualTo, [TextValue(category)]),
           Condition("month_c", EqualTo, [TextValue(month)]),
           Condition("year_c", EqualTo, [NumberValue(year)])],
          [])
  }

  /** `existingResponse.success && existingResponse.data?.length > 0`: the
      search found a match exactly when the silent list read of the same
      response would list at least one budget. */
  predicate FoundExisting(search: FetchResponse<BudgetRecord>): (found: bool)
    ensures found <==> Accepted(search) && |ListOutcome(search, FromRecord, false).result| > 0
  {
    Accepted(search) && search.data.Some? && |search.data.value| > 0
  }

  /** Search by key, then update the first match (by its `Id`) or, when the
      search is rejected or empty, create. A throwing search ends the call
      silently with `null` before any write. An absent argument is sent as
      `undefined` and named "undefined Budget". */
  function Upsert(category: Option<string>, monthlyLimit: Option<int>, month: Option<string>, year: Option<int>,
                  search: FetchResponse<BudgetRecord>, write: RecordResponse<BudgetRecord>): (c: Call<Option<Budget>, BudgetRecord>)
    ensures |c.requests| >= 1 && c.requests[0] == FetchRecords(Table, SearchQuery(category, month, year))
    ensures search.Thrown? ==> |c.requests| == 1 && c.result == None && c.notices == []
    ensures FoundExisting(search) ==>
      && |c.requests| == 2
      && c.requests[1] == UpdateRecord(Table, [ToRecord(search.data.value[0].Id, category, monthlyLimit, month, year)])
    ensures search.Envelope? && !FoundExisting(search) ==>
      && |c.requests| == 2
      && c.requests[1] == CreateRecord(Table, [ToRecord(None, category, monthlyLimit, month, year)])
    ensures search.Envelope? ==> FirstResultSpec(write, FromRecord, c.result, c.notices)
  {
    var find := FetchRecords(Table, SearchQuery(category, month, year));
    if search.Thrown? then Call([find], None, [])
    else
      var o := FirstResultOutcome(write, FromRecord);
      if FoundExisting(search) then
        var record := ToRecord(search.data.value[0].Id, category, monthlyLimit, month, year);
        Call([find, UpdateRecord(Table, [record])], o.result, o.notices)
      else
        var record := ToRecord(None, category, monthlyLimit, month, year);
        Call([find, CreateRecord(Table, [record])], o.result, o.notices)
  }

  /** The upsert writes exactly the record `create` would send when nothing
      matches, and the record `update` would send for the match's `Id`
      otherwise; in both cases the written fields read back unchanged. */
  lemma UpsertWritesTheKeyedBudget(category: Option<string>, monthlyLimit: Option<int>, month: Option<string>, year: Option<int>,
                                   search: FetchResponse<BudgetRecord>, write: RecordResponse<BudgetRecord>)
    requires search.Envelope?
    ensures var c := Upsert(category, monthlyLimit, month, year, search, write);
      && |c.requests| == 2
      && (c.requests[1].UpdateRecord? <==> FoundExisting(search))
      && (c.requests[1].CreateRecord? <==> !FoundExisting(search))
      && c.requests[1].records == [ToRecord(if FoundExisting(search) then search.data.value[0].Id else None,
                                            category, monthlyLimit, month, year)]
      && var b := FromRecord(c.requests[1].records[0]);
         b.category == category && b.monthlyLimit == monthlyLimit && b.month == month && b.year == year
  {
  }

  /** An upsert without a category names the budget "undefined Budget". */
  lemma UpsertWithoutCategoryIsNamedUndefined(monthlyLimit: Option<int>, month: Option<string>, year: Option<int>,
                                              search: FetchResponse<BudgetRecord>, write: RecordResponse<BudgetRecord>)
    requires search.Envelope?
    ensures var c := Upsert(None, monthlyLimit, month, year, search, write);
      c.requests[1].records[0].Name == Some("undefined Budget")
      && c.requests[0].query.where[0].values == [Undefined]
  {
    assert Interpolate(None) + " Budget" == "undefined Budget";
  }
}
