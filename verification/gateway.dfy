/** The pattern every service repeats: turn the store's response envelope into
    one soft result (a list, a record or `null`, `true`/`false`) plus the
    toasts raised on the way. Each service instantiates these with its own
    record-to-entity mapping `f`. */
module Gateway {
  import opened Js
  import opened Store

  /** The value a service resolves to and the toasts it raised. */
  datatype Outcome<T> = Outcome(result: T, notices: seq<Notice>)

  // ---------------------------------------------------------------------
  // Partition of batch results
  // ---------------------------------------------------------------------

  /** `results.filter(r => r.success)` */
  function Successful<R>(rs: seq<RecordResult<R>>): (s: seq<RecordResult<R>>)
    ensures forall k :: 0 <= k < |s| ==> s[k] in rs && s[k].success
    ensures forall k :: 0 <= k < |rs| && rs[k].success ==> rs[k] in s
  {
    if rs == [] then []
    else (if rs[0].success then [rs[0]] else []) + Successful(rs[1..])
  }

  /** `results.filter(r => !r.success)` */
  function Failed<R>(rs: seq<RecordResult<R>>): (s: seq<RecordResult<R>>)
    ensures forall k :: 0 <= k < |s| ==> s[k] in rs && !s[k].success
    ensures forall k :: 0 <= k < |rs| && !rs[k].success ==> rs[k] in s
  {
    if rs == [] then []
    else (if rs[0].success then [] else [rs[0]]) + Failed(rs[1..])
  }

  /** The two filters split the batch: every result lands in exactly one of
      them, as often as it occurs. */
  lemma {:induction false} PartitionKeepsEveryResult<R>(rs: seq<RecordResult<R>>)
    ensures multiset(Successful(rs)) + multiset(Failed(rs)) == multiset(rs)
    ensures |Successful(rs)| + |Failed(rs)| == |rs|
  {
    if rs != [] {
      PartitionKeepsEveryResult(rs[1..]);
      assert rs == [rs[0]] + rs[1..];
    }
  }

  /** Position `i` holds the first successful result of the batch. */
  ghost predicate IsFirstSuccess<R>(rs: seq<RecordResult<R>>, i: int) {
    0 <= i < |rs| && rs[i].success && forall j :: 0 <= j < i ==> !rs[j].success
  }

  /** `successful[0]` is the earliest successful entry of the batch. */
  lemma {:induction false} FirstSuccessfulIsEarliest<R>(rs: seq<RecordResult<R>>)
    requires Successful(rs) != []
    ensures exists i :: IsFirstSuccess(rs, i) && Successful(rs)[0] == rs[i]
  {
    if rs[0].success {
      assert IsFirstSuccess(rs, 0);
    } else {
      assert Successful(rs) == Successful(rs[1..]);
      FirstSuccessfulIsEarliest(rs[1..]);
      var i :| IsFirstSuccess(rs[1..], i) && Successful(rs[1..])[0] == rs[1..][i];
      assert IsFirstSuccess(rs, i + 1);
    }
  }

  /** There is a successful entry exactly when `successful` is non-empty. */
  lemma SomeSuccessIffSuccessfulNonEmpty<R>(rs: seq<RecordResult<R>>)
    ensures (exists i :: 0 <= i < |rs| && rs[i].success) <==> Successful(rs) != []
  {
    if exists i :: 0 <= i < |rs| && rs[i].success {
      var i :| 0 <= i < |rs| && rs[i].success;
      assert rs[i] in rs;
    } else if Successful(rs) != [] {
      assert Successful(rs)[0] in Successful(rs);
    }
  }

  // ---------------------------------------------------------------------
  // Toasts for failed records
  // ---------------------------------------------------------------------

  /** One `FieldErrorToast` per entry of `errors`, in order. */
  function FieldErrorToasts(es: seq<FieldError>): seq<Notice> {
    seq(|es|, i requires 0 <= i < |es| => FieldErrorToast(es[i].fieldLabel))
  }

  /** Toasts for one failed record: one per field error (create and update
      only), then its `message` if truthy. */
  function RecordNotices<R>(r: RecordResult<R>, withFieldErrors: bool): seq<Notice> {
    (if withFieldErrors && r.errors.Some? then FieldErrorToasts(r.errors.value) else [])
      + (if IsTruthy(r.message) then [Toast(r.message)] else [])
  }

  /** `failed.forEach(...)`: the toasts of each failed record, in order. */
  function NoticesOf<R>(failed: seq<RecordResult<R>>, withFieldErrors: bool): (ns: seq<Notice>)
    ensures !withFieldErrors ==> forall n :: n in ns ==> n.Toast? && IsTruthy(n.text)
  {
    if failed == [] then []
    else RecordNotices(failed[0], withFieldErrors) + NoticesOf(failed[1..], withFieldErrors)
  }

  /** The toasts a batch response raises: those of its failed entries only. */
  function FailureNotices<R>(rs: seq<RecordResult<R>>, withFieldErrors: bool): (ns: seq<Notice>)
    ensures (forall k :: 0 <= k < |rs| ==> rs[k].success) ==> ns == []
    ensures !withFieldErrors ==> forall n :: n in ns ==> n.Toast? && IsTruthy(n.text)
  {
    var failed := Failed(rs);
    assert (forall k :: 0 <= k < |rs| ==> rs[k].success) ==> failed == [] by {
      if failed != [] {
        assert failed[0] in failed;
      }
    }
    NoticesOf(failed, withFieldErrors)
  }

  lemma {:induction false} NoticesOfMembership<R>(xs: seq<RecordResult<R>>, withFieldErrors: bool, n: Notice)
    ensures n in NoticesOf(xs, withFieldErrors) <==> exists r :: r in xs && n in RecordNotices(r, withFieldErrors)
  {
    if xs != [] {
      NoticesOfMembership(xs[1..], withFieldErrors, n);
      assert xs == [xs[0]] + xs[1..];
      if n in RecordNotices(xs[0], withFieldErrors) {
        assert xs[0] in xs;
      }
    }
  }

  /** A toast is raised for a batch exactly when some failed entry raises it;
      successful entries never raise anything. */
  lemma FailureNoticesComeFromFailedRecords<R>(rs: seq<RecordResult<R>>, withFieldErrors: bool, n: Notice)
    ensures n in FailureNotices(rs, withFieldErrors)
        <==> exists r :: r in rs && !r.success && n in RecordNotices(r, withFieldErrors)
  {
    NoticesOfMembership(Failed(rs), withFieldErrors, n);
  }

  lemma {:induction false} OneNoticeEach<R>(failed: seq<RecordResult<R>>)
    requires forall r :: r in failed ==> IsTruthy(r.message) && r.errors.None?
    ensures |NoticesOf(failed, true)| == |failed|
  {
    if failed != [] {
      assert failed[0] in failed;
      OneNoticeEach(failed[1..]);
    }
  }

  /** When every failed entry carries a message and no field errors, a batch
      of N results of which K succeeded raises exactly N - K toasts. */
  lemma OneNoticePerFailedRecord<R>(rs: seq<RecordResult<R>>)
    requires forall r :: r in rs && !r.success ==> IsTruthy(r.message) && r.errors.None?
    ensures |FailureNotices(rs, true)| == |rs| - |Successful(rs)|
  {
    OneNoticeEach(Failed(rs));
    PartitionKeepsEveryResult(rs);
  }

  /** Number of field errors a failed record lists (none when `errors` is absent). */
  function FieldErrorCount<R>(r: RecordResult<R>): nat {
    if r.errors.Some? then |r.errors.value| else 0
  }

  /** Toasts one failed record is expected to raise on create and update:
      one per field error plus one for a truthy message. */
  function ExpectedNotices<R>(r: RecordResult<R>): nat {
    FieldErrorCount(r) + (if IsTruthy(r.message) then 1 else 0)
  }

  function SumExpected<R>(xs: seq<RecordResult<R>>): nat {
    if xs == [] then 0 else ExpectedNotices(xs[0]) + SumExpected(xs[1..])
  }

  function TotalFieldErrors<R>(xs: seq<RecordResult<R>>): nat {
    if xs == [] then 0 else FieldErrorCount(xs[0]) + TotalFieldErrors(xs[1..])
  }

  /** Failed records raise, in total, one toast per field error plus one per
      truthy message. */
  lemma {:induction false} NoticeCount<R>(xs: seq<RecordResult<R>>)
    ensures |NoticesOf(xs, true)| == SumExpected(xs)
  {
    if xs != [] {
      NoticeCount(xs[1..]);
    }
  }

  lemma {:induction false} SumExpectedWithMessages<R>(xs: seq<RecordResult<R>>)
    requires forall k :: 0 <= k < |xs| ==> IsTruthy(xs[k].message)
    ensures SumExpected(xs) == |xs| + TotalFieldErrors(xs)
  {
    if xs != [] {
      SumExpectedWithMessages(xs[1..]);
    }
  }

  /** When every failed entry carries a message, a batch of N results of
      which K succeeded raises N - K message toasts plus one toast per field
      error listed by the failed entries. */
  lemma NoticesPerFailedRecordAndFieldError<R>(rs: seq<RecordResult<R>>)
    requires forall k :: 0 <= k < |rs| && !rs[k].success ==> IsTruthy(rs[k].message)
    ensures |FailureNotices(rs, true)| == (|rs| - |Successful(rs)|) + TotalFieldErrors(Failed(rs))
  {
    var failed := Failed(rs);
    forall k | 0 <= k < |failed|
      ensures IsTruthy(failed[k].message)
    {
      assert failed[k] in rs;
    }
    NoticeCount(failed);
    SumExpectedWithMessages(failed);
    PartitionKeepsEveryResult(rs);
  }

  /** Toasts of a write or delete: the envelope's `message` when it reports
      failure (even if that message is `undefined`), otherwise those of the
      failed entries of `results`; nothing when the call threw. */
  function EnvelopeNotices<D, R>(resp: Response<D, R>, withFieldErrors: bool): seq<Notice> {
    if Rejected(resp) then [Toast(resp.message)]
    else if Accepted(resp) then FailureNotices(ResultsOf(resp), withFieldErrors)
    else []
  }

  // ---------------------------------------------------------------------
  // What each kind of operation promises
  // ---------------------------------------------------------------------

  /** `getAll` and the filtered reads: on an accepted envelope with `data`,
      every record mapped in order; otherwise `[]`. Only `getAll` toasts a
      rejected envelope's message. */
  ghost predicate ListSpec<R, E>(resp: FetchResponse<R>, f: R -> E, notify: bool, result: seq<E>, notices: seq<Notice>) {
    && (if Accepted(resp) && resp.data.Some?
        then |result| == |resp.data.value| && forall i :: 0 <= i < |result| ==> result[i] == f(resp.data.value[i])
        else result == [])
    && notices == (if notify && Rejected(resp) then [Toast(resp.message)] else [])
  }

  /** `getById`: the mapped record whenever `data` is present, whatever
      `success` says; `null` otherwise; never a toast. */
  ghost predicate GetSpec<R, E>(resp: RecordResponse<R>, f: R -> E, result: Option<E>, notices: seq<Notice>) {
    && (result.Some? <==> resp.Envelope? && resp.data.Some?)
    && (result.Some? ==> result.value == f(resp.data.value))
    && notices == []
  }

  /** `create` and `update`: non-null exactly when the envelope is accepted and
      the earliest successful entry carries data, and then that entry mapped
      ("first success wins"); toasts per `EnvelopeNotices` with field errors. */
  ghost predicate WriteSpec<R, E>(resp: RecordResponse<R>, f: R -> E, result: Option<E>, notices: seq<Notice>) {
    var rs := ResultsOf(resp);
    && (result.Some? <==> Accepted(resp) && exists i :: IsFirstSuccess(rs, i) && rs[i].data.Some?)
    && (forall i :: Accepted(resp) && IsFirstSuccess(rs, i) && rs[i].data.Some? ==> result == Some(f(rs[i].data.value)))
    && notices == EnvelopeNotices(resp, true)
  }

  /** `delete`: true exactly when the envelope is accepted and some entry of
      `results` succeeded; toasts carry record messages only. */
  ghost predicate DeleteSpec<R>(resp: RecordResponse<R>, result: bool, notices: seq<Notice>) {
    var rs := ResultsOf(resp);
    && (result <==> Accepted(resp) && exists i :: 0 <= i < |rs| && rs[i].success)
    && notices == EnvelopeNotices(resp, false)
  }

  /** The writes inside `upsertBudget`: only `results[0]` decides, and failed
      entries raise nothing. */
  ghost predicate FirstResultSpec<R, E>(resp: RecordResponse<R>, f: R -> E, result: Option<E>, notices: seq<Notice>) {
    var rs := ResultsOf(resp);
    && (result.Some? <==> Accepted(resp) && |rs| > 0 && rs[0].success && rs[0].data.Some?)
    && (result.Some? ==> result.value == f(rs[0].data.value))
    && notices == (if Rejected(resp) then [Toast(resp.message)] else [])
  }

  // ---------------------------------------------------------------------
  // The shared operations
  // ---------------------------------------------------------------------

  /** `response.data?.map(f) || []` behind the `success` check. */
  function ListOutcome<R, E>(resp: FetchResponse<R>, f: R -> E, notify: bool): (o: Outcome<seq<E>>)
    ensures ListSpec(resp, f, notify, o.result, o.notices)
  {
    match resp
    case Thrown => Outcome([], [])
    case Envelope(success, message, data, _) =>
      if !success then Outcome([], if notify then [Toast(message)] else [])
      else if data.None? then Outcome([], [])
      else Outcome(seq(|data.value|, i requires 0 <= i < |data.value| => f(data.value[i])), [])
  }

  /** `if (!response?.data) return null;` then the mapped record. */
  function GetOutcome<R, E>(resp: RecordResponse<R>, f: R -> E): (o: Outcome<Option<E>>)
    ensures GetSpec(resp, f, o.result, o.notices)
  {
    match resp
    case Thrown => Outcome(None, [])
    case Envelope(_, _, data, _) =>
      if data.None? then Outcome(None, []) else Outcome(Some(f(data.value)), [])
  }

  /** The create/update tail: envelope check, partition, toasts for the failed
      entries, then `successful[0].data` mapped. Mapping absent data throws,
      which the service catches and turns into `null`. */
  function WriteOutcome<R, E>(resp: RecordResponse<R>, f: R -> E): (o: Outcome<Option<E>>)
    ensures WriteSpec(resp, f, o.result, o.notices)
  {
    match resp
    case Thrown => Outcome(None, [])
    case Envelope(success, message, _, results) =>
      if !success then Outcome(None, [Toast(message)])
      else if results.None? then Outcome(None, [])
      else
        var rs := results.value;
        var notices := FailureNotices(rs, true);
        var ok := Successful(rs);
        SomeSuccessIffSuccessfulNonEmpty(rs);
        if ok == [] then Outcome(None, notices)
        else
          FirstSuccessfulIsEarliest(rs);
          if ok[0].data.Some? then Outcome(Some(f(ok[0].data.value)), notices)
          else Outcome(None, notices)
  }

  /** The delete tail: envelope check, partition, record-message toasts only,
      then `successful.length > 0`. */
  function DeleteOutcome<R>(resp: RecordResponse<R>): (o: Outcome<bool>)
    ensures DeleteSpec(resp, o.result, o.notices)
  {
    match resp
    case Thrown => Outcome(false, [])
    case Envelope(success, message, _, results) =>
      if !success then Outcome(false, [Toast(message)])
      else if results.None? then Outcome(false, [])
      else
        var rs := results.value;
        SomeSuccessIffSuccessfulNonEmpty(rs);
        Outcome(|Successful(rs)| > 0, FailureNotices(rs, false))
  }

  /** The write tail inside `upsertBudget`:
      `results?.length > 0 && results[0].success`. */
  function FirstResultOutcome<R, E>(resp: RecordResponse<R>, f: R -> E): (o: Outcome<Option<E>>)
    ensures FirstResultSpec(resp, f, o.result, o.notices)
  {
    match resp
    case Thrown => Outcome(None, [])
    case Envelope(success, message, _, results) =>
      if !success then Outcome(None, [Toast(message)])
      else if results.Some? && |results.value| > 0 && results.value[0].success && results.value[0].data.Some?
      then Outcome(Some(f(results.value[0].data.value)), [])
      else Outcome(None, [])
  }

  // ---------------------------------------------------------------------
  // Consequences callers rely on
  // ---------------------------------------------------------------------

  /** A batch with some successful entry has an earliest one. */
  lemma {:induction false} SomeSuccessHasAFirst<R>(rs: seq<RecordResult<R>>, k: int)
    requires 0 <= k < |rs| && rs[k].success
    ensures exists i :: IsFirstSuccess(rs, i)
  {
    if rs[0].success {
      assert IsFirstSuccess(rs, 0);
    } else {
      SomeSuccessHasAFirst(rs[1..], k - 1);
      var i :| IsFirstSuccess(rs[1..], i);
      assert IsFirstSuccess(rs, i + 1);
    }
  }

  /** When every successful entry echoes its record, a write resolves to a
      value exactly when the envelope is accepted and some entry succeeded. */
  lemma WriteSucceedsIffSomeEntrySucceeded<R, E>(resp: RecordResponse<R>, f: R -> E, result: Option<E>, notices: seq<Notice>)
    requires WriteSpec(resp, f, result, notices)
    requires forall k :: 0 <= k < |ResultsOf(resp)| && ResultsOf(resp)[k].success ==> ResultsOf(resp)[k].data.Some?
    ensures result.Some? <==> Accepted(resp) && exists k :: 0 <= k < |ResultsOf(resp)| && ResultsOf(resp)[k].success
  {
    var rs := ResultsOf(resp);
    if Accepted(resp) && exists k :: 0 <= k < |rs| && rs[k].success {
      var k :| 0 <= k < |rs| && rs[k].success;
      SomeSuccessHasAFirst(rs, k);
    }
  }

  /** A write whose envelope is accepted and whose every entry succeeded is
      silent; an all-failed one resolves to `null`. */
  lemma WriteToastsOnlyForFailures<R, E>(resp: RecordResponse<R>, f: R -> E, result: Option<E>, notices: seq<Notice>)
    requires WriteSpec(resp, f, result, notices)
    ensures Accepted(resp) && (forall r :: r in ResultsOf(resp) ==> r.success) ==> notices == []
    ensures (forall r :: r in ResultsOf(resp) ==> !r.success) ==> result == None
  {
    var rs := ResultsOf(resp);
    if result.Some? {
      var i :| IsFirstSuccess(rs, i) && rs[i].data.Some?;
      assert rs[i] in rs;
    }
  }
}
