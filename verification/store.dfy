/** The hosted record store as the services talk to it: the requests they
    build, the response envelope they receive back, and the toasts they raise.
    The store itself (filtering, sorting, persistence) is not modelled; a
    response is whatever the caller supplies. */
module Store {
  import opened Js

  datatype Operator = EqualTo | StartsWith

  /** One entry of a `Values` list in a `where` clause; `Undefined` is an
      argument that was not supplied. */
  datatype Value = Text(text: string) | Number(number: int) | Undefined

  /** A string argument placed in `Values`. */
  function TextValue(s: Option<string>): (v: Value)
    ensures s.Some? <==> v.Text?
    ensures s.Some? ==> v.text == s.value
    ensures s.None? ==> v == Undefined
  {
    if s.Some? then Text(s.value) else Undefined
  }

  /** A numeric argument placed in `Values`. */
  function NumberValue(n: Option<int>): (v: Value)
    ensures n.Some? <==> v.Number?
    ensures n.Some? ==> v.number == n.value
    ensures n.None? ==> v == Undefined
  {
    if n.Some? then Number(n.value) else Undefined
  }

  /** `{"FieldName": f, "Operator": op, "Values": vs}` */
  datatype Condition = Condition(fieldName: string, operator: Operator, values: seq<Value>)

  datatype SortType = Asc | Desc

  /** `{"fieldName": f, "sorttype": s}` */
  datatype Order = Order(fieldName: string, sortType: SortType)

  /** The `params` of a read: selected fields, `where` clauses and `orderBy`. */
  datatype Query = Query(fields: seq<string>, where: seq<Condition>, orderBy: seq<Order>)

  /** One call on the client, with the table name and what is sent. */
  datatype Request<R> =
    | FetchRecords(table: string, query: Query)
    | GetRecordById(table: string, id: int, query: Query)
    | CreateRecord(table: string, records: seq<R>)
    | UpdateRecord(table: string, records: seq<R>)
    | DeleteRecord(table: string, recordIds: seq<int>)

  /** An entry of a failed record's `errors` list. */
  datatype FieldError = FieldError(fieldLabel: Option<string>)

  /** One entry of the envelope's `results`: the per-record outcome of a batch write. */
  datatype RecordResult<R> = RecordResult(
    success: bool,
    data: Option<R>,
    message: Option<string>,
    errors: Option<seq<FieldError>>)

  /** What a client call produces: the envelope it resolves to, or an
      exception (the call rejects, or a plain `.` access on a `null` or
      `undefined` response throws). Where the code reads the response only
      through `?.`, a `null` or `undefined` response instead behaves like an
      envelope without `data`. A response that is a string or a number has
      no `success`, so it behaves like a rejected envelope without a
      message. */
  datatype Response<D, R> =
    | Envelope(success: bool, message: Option<string>, data: Option<D>, results: Option<seq<RecordResult<R>>>)
    | Thrown

  /** Response of `fetchRecords`: `data` is a list of records. */
  type FetchResponse<R> = Response<seq<R>, R>

  /** Response of `getRecordById`, `createRecord`, `updateRecord` and `deleteRecord`:
      `data` is at most one record, batch outcomes are in `results`. */
  type RecordResponse<R> = Response<R, R>

  /** A `toast.error(...)` call. `Toast` carries the text passed (possibly
      `undefined`); `FieldErrorToast` is the one raised per field error, whose
      exact text is not modelled. */
  datatype Notice = Toast(text: Option<string>) | FieldErrorToast(fieldLabel: Option<string>)

  /** Everything one service operation does: the client calls it issues in
      order, the value it resolves to, and the toasts it raises in order. */
  datatype Call<T, R> = Call(requests: seq<Request<R>>, result: T, notices: seq<Notice>)

  /** The envelope arrived and reports `success`. */
  predicate Accepted<D, R>(resp: Response<D, R>) {
    resp.Envelope? && resp.success
  }

  /** The envelope arrived and reports failure. */
  predicate Rejected<D, R>(resp: Response<D, R>) {
    resp.Envelope? && !resp.success
  }

  /** The envelope's `results`, or the empty list when there are none. */
  function ResultsOf<D, R>(resp: Response<D, R>): seq<RecordResult<R>> {
    if resp.Envelope? && resp.results.Some? then resp.results.value else []
  }
}
