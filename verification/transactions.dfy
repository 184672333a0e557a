/** `transactionService`: income and expense entries in `transaction_c`.
    A transaction's description falls back to the record's `Name`, and a
    written record's `Name` falls back to "Transaction". */
module Transactions {
  import opened Js
  import opened Store
  import opened Gateway

  const Table := "transaction_c"

  const Fields: seq<string> := ["Id", "Name", "amount_c", "category_c", "type_c", "description_c", "date_c", "created_at_c"]

  /** `Name` written when the description is falsy. */
  const DefaultName := "Transaction"

  /** A row of `transaction_c` as the store sends and receives it. */
  datatype TransactionRecord = TransactionRecord(
    Id: Option<int>,
    Name: Option<string>,
    amount_c: Option<int>,
    category_c: Option<string>,
    type_c: Option<string>,
    description_c: Option<string>,
    date_c: Option<string>,
    created_at_c: Option<string>)

  /** A transaction as the pages see it. `kind` is the `type` field
      ("income" or "expense"); amounts are in cents. */
  datatype Transaction = Transaction(
    Id: Option<int>,
    amount: Option<int>,
    category: Option<string>,
    kind: Option<string>,
    description: Option<string>,
    date: Option<string>,
    createdAt: Option<string>)

  /** The mapping every read applies: `description_c || Name`, so the
      description is the stored one when that is a non-empty string and the
      record's `Name` otherwise; every other field is read as stored. */
  function FromRecord(r: TransactionRecord): (t: Transaction)
    ensures IsTruthy(r.description_c) ==> t.description == r.description_c
    ensures !IsTruthy(r.description_c) ==> t.description == r.Name
    ensures t.Id == r.Id && t.amount == r.amount_c && t.category == r.category_c
         && t.kind == r.type_c && t.date == r.date_c && t.createdAt == r.created_at_c
  {
    Transaction(r.Id, r.amount_c, r.category_c, r.type_c, Or(r.description_c, r.Name), r.date_c, r.created_at_c)
  }

  /** The record `create` (with `createdAt` the current time) and `update`
      (with `createdAt` absent) send. Mapping it back restores every written
      field except a falsy description, which reads back as "Transaction". */
  function ToRecord(id: Option<int>, t: Transaction, createdAt: Option<string>): (r: TransactionRecord)
    ensures r.Name == Some(if IsTruthy(t.description) then t.description.value else DefaultName)
    ensures r.description_c == t.description
    ensures FromRecord(r) == t.(Id := id, createdAt := createdAt,
                                description := if IsTruthy(t.description) then t.description else Some(DefaultName))
  {
    TransactionRecord(id, Or(t.description, Some(DefaultName)), t.amount, t.category, t.kind, t.description, t.date, createdAt)
  }

  /** The description survives a write and read-back exactly when it is a
      non-empty string. */
  lemma DescriptionRoundTripsIffTruthy(id: Option<int>, t: Transaction, createdAt: Option<string>)
    ensures FromRecord(ToRecord(id, t, createdAt)).description == t.description <==> IsTruthy(t.description)
  {
  }

  function GetAll(resp: FetchResponse<TransactionRecord>): (c: Call<seq<Transaction>, TransactionRecord>)
    ensures c.requests == [FetchRecords(Table, Query(Fields, [], [Order("date_c", Desc)]))]
    ensures ListSpec(resp, FromRecord, true, c.result, c.notices)
  {
    var o := ListOutcome(resp, FromRecord, true);
    Call([FetchRecords(Table, Query(Fields, [], [Order("date_c", Desc)]))], o.result, o.notices)
  }

  function GetById(id: int, resp: RecordResponse<TransactionRecord>): (c: Call<Option<Transaction>, TransactionRecord>)
    ensures c.requests == [GetRecordById(Table, id, Query(Fields, [], []))]
    ensures GetSpec(resp, FromRecord, c.result, c.notices)
  {
    var o := GetOutcome(resp, FromRecord);
    Call([GetRecordById(Table, id, Query(Fields, [], []))], o.result, o.notices)
  }

  /** `now` is the `new Date().toISOString()` stamped into `created_at_c`. */
  function Create(t: Transaction, now: string, resp: RecordResponse<TransactionRecord>): (c: Call<Option<Transaction>, TransactionRecord>)
    ensures c.requests == [CreateRecord(Table, [ToRecord(None, t, Some(now))])]
    ensures c.requests[0].records[0].created_at_c == Some(now)
    ensures WriteSpec(resp, FromRecord, c.result, c.notices)
  {
    var o := WriteOutcome(resp, FromRecord);
    Call([CreateRecord(Table, [ToRecord(None, t, Some(now))])], o.result, o.notices)
  }

  /** Update never sends `created_at_c`. */
  function Update(id: int, t: Transaction, resp: RecordResponse<TransactionRecord>): (c: Call<Option<Transaction>, TransactionRecord>)
    ensures c.requests == [UpdateRecord(Table, [ToRecord(Some(id), t, None)])]
    ensures c.requests[0].records[0].created_at_c == None
    ensures WriteSpec(resp, FromRecord, c.result, c.notices)
  {
    var o := WriteOutcome(resp, FromRecord);
    Call([UpdateRecord(Table, [ToRecord(Some(id), t, None)])], o.result, o.notices)
  }

  function Delete(id: int, resp: RecordResponse<TransactionRecord>): (c: Call<bool, TransactionRecord>)
    ensures c.requests == [DeleteRecord(Table, [id])]
    ensures DeleteSpec(resp, c.result, c.notices)
  {
    var o := DeleteOutcome(resp);
    Call([DeleteRecord(Table, [id])], o.result, o.notices)
  }

  /** Transactions whose `date_c` starts with `monthYear` ("YYYY-MM"). An
      absent argument is sent as `undefined`. */
  function GetByMonth(monthYear: Option<string>, resp: FetchResponse<TransactionRecord>): (c: Call<seq<Transaction>, TransactionRecord>)
    ensures c.requests == [FetchRecords(Table, Query(Fields, [Condition("date_c", StartsWith, [TextValue(monthYear)])], []))]
    ensures ListSpec(resp, FromRecord, false, c.result, c.notices)
  {
    var o := ListOutcome(resp, FromRecord, false);
    Call([FetchRecords(Table, Query(Fields, [Condition("date_c", StartsWith, [TextValue(monthYear)])], []))], o.result, o.notices)
  }

  /** Transactions whose `category_c` equals `category`. An absent argument
      is sent as `undefined`. */
  function GetByCategory(category: Option<string>, resp: FetchResponse<TransactionRecord>): (c: Call<seq<Transaction>, TransactionRecord>)
    ensures c.requests == [FetchRecords(Table, Query(Fields, [Condition("category_c", EqualTo, [TextValue(category)])], []))]
    ensures ListSpec(resp, FromRecord, false, c.result, c.notices)
  {
    var o := ListOutcome(resp, FromRecord, false);
    Call([FetchRecords(Table, Query(Fields, [Condition("category_c", EqualTo, [TextValue(category)])], []))], o.result, o.notices)
  }
}
