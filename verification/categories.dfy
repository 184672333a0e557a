/** `categoryService`: income and expense categories in `category_c`.
    Categories created through the service are always marked custom. */
module Categories {
  import opened Js
  import opened Store
  import opened Gateway

  const Table := "category_c"

  const Fields: seq<string> := ["Id", "Name", "name_c", "type_c", "color_c", "is_custom_c"]

  /** A row of `category_c` as the store sends and receives it. */
  datatype CategoryRecord = CategoryRecord(
    Id: Option<int>,
    Name: Option<string>,
    name_c: Option<string>,
    type_c: Option<string>,
    color_c: Option<string>,
    is_custom_c: Option<bool>)

  /** A category as the pages see it. `kind` is the `type` field
      ("income" or "expense"). */
  datatype Category = Category(
    Id: Option<int>,
    name: Option<string>,
    kind: Option<string>,
    color: Option<string>,
    isCustom: Option<bool>)

  /** The mapping every read applies: `name_c || Name`, so the name is the
      stored one when that is a non-empty string and the record's `Name`
      otherwise; every other field is read as stored. */
  function FromRecord(r: CategoryRecord): (cat: Category)
    ensures IsTruthy(r.name_c) ==> cat.name == r.name_c
    ensures !IsTruthy(r.name_c) ==> cat.name == r.Name
    ensures cat.Id == r.Id && cat.kind == r.type_c && cat.color == r.color_c && cat.isCustom == r.is_custom_c
  {
    Category(r.Id, Or(r.name_c, r.Name), r.type_c, r.color_c, r.is_custom_c)
  }

  /** The record `create` (`id` absent, `isCustom` forced to true) and `update`
      (`isCustom` as given) send: the name goes to both `Name` and `name_c`, so
      it reads back unchanged, empty or not. */
  function ToRecord(id: Option<int>, cat: Category, isCustom: Option<bool>): (r: CategoryRecord)
    ensures r.Name == cat.name && r.name_c == cat.name
    ensures FromRecord(r) == cat.(Id := id, isCustom := isCustom)
  {
    CategoryRecord(id, cat.name, cat.name, cat.kind, cat.color, isCustom)
  }

  function GetAll(resp: FetchResponse<CategoryRecord>): (c: Call<seq<Category>, CategoryRecord>)
    ensures c.requests == [FetchRecords(Table, Query(Fields, [], []))]
    ensures ListSpec(resp, FromRecord, true, c.result, c.notices)
  {
    var o := ListOutcome(resp, FromRecord, true);
    Call([FetchRecords(Table, Query(Fields, [], []))], o.result, o.notices)
  }

  function GetById(id: int, resp: RecordResponse<CategoryRecord>): (c: Call<Option<Category>, CategoryRecord>)
    ensures c.requests == [GetRecordById(Table, id, Query(Fields, [], []))]
    ensures GetSpec(resp, FromRecord, c.result, c.notices)
  {
    var o := GetOutcome(resp, FromRecord);
    Call([GetRecordById(Table, id, Query(Fields, [], []))], o.result, o.notices)
  }

  /** Sends `is_custom_c = true` whatever `cat.isCustom` holds. */
  function Create(cat: Category, resp: RecordResponse<CategoryRecord>): (c: Call<Option<Category>, CategoryRecord>)
    ensures c.requests == [CreateRecord(Table, [ToRecord(None, cat, Some(true))])]
    ensures c.requests[0].records[0].is_custom_c == Some(true)
    ensures WriteSpec(resp, FromRecord, c.result, c.notices)
  {
    var o := WriteOutcome(resp, FromRecord);
    Call([CreateRecord(Table, [ToRecord(None, cat, Some(true))])], o.result, o.notices)
  }

  /** Sends `is_custom_c` exactly as `cat.isCustom` holds it. */
  function Update(id: int, cat: Category, resp: RecordResponse<CategoryRecord>): (c: Call<Option<Category>, CategoryRecord>)
    ensures c.requests == [UpdateRecord(Table, [ToRecord(Some(id), cat, cat.isCustom)])]
    ensures c.requests[0].records[0].is_custom_c == cat.isCustom
    ensures WriteSpec(resp, FromRecord, c.result, c.notices)
  {
    var o := WriteOutcome(resp, FromRecord);
    Call([UpdateRecord(Table, [ToRecord(Some(id), cat, cat.isCustom)])], o.result, o.notices)
  }

  function Delete(id: int, resp: RecordResponse<CategoryRecord>): (c: Call<bool, CategoryRecord>)
    ensures c.requests == [DeleteRecord(Table, [id])]
    ensures DeleteSpec(resp, c.result, c.notices)
  {
    var o := DeleteOutcome(resp);
    Call([DeleteRecord(Table, [id])], o.result, o.notices)
  }

  /** Categories whose `type_c` equals `kind`; a rejected envelope is
      silent. An absent argument is sent as `undefined`. */
  function GetByType(kind: Option<string>, resp: FetchResponse<CategoryRecord>): (c: Call<seq<Category>, CategoryRecord>)
    ensures c.requests == [FetchRecords(Table, Query(Fields, [Condition("type_c", EqualTo, [TextValue(kind)])], []))]
    ensures ListSpec(resp, FromRecord, false, c.result, c.notices)
  {
    var o := ListOutcome(resp, FromRecord, false);
    Call([FetchRecords(Table, Query(Fields, [Condition("type_c", EqualTo, [TextValue(kind)])], []))], o.result, o.notices)
  }
}
