/** `savingsGoalService`: savings targets in `savings_goal_c`, and
    `updateAmount`, which reads a goal's current amount and writes back the
    adjusted amount, clamped at zero. */
module SavingsGoals {
  import opened Js
  import opened Store
  import opened Gateway

  const Table := "savings_goal_c"

  const Fields: seq<string> := ["Id", "Name", "title_c", "target_amount_c", "current_amount_c", "deadline_c", "created_at_c"]

  /** Fields `updateAmount` reads before writing. */
  const AmountFields: seq<string> := ["Id", "current_amount_c"]

  /** The toast `updateAmount` raises when the goal cannot be read. */
  const NotFoundMessage := "Savings goal not found"

  /** A row of `savings_goal_c` as the store sends and receives it. */
  datatype SavingsGoalRecord = SavingsGoalRecord(
    Id: Option<int>,
    Name: Option<string>,
    title_c: Option<string>,
    target_amount_c: Option<int>,
    current_amount_c: Option<int>,
    deadline_c: Option<string>,
    created_at_c: Option<string>)

  /** A savings goal as the pages see it; amounts are in cents. */
  datatype SavingsGoal = SavingsGoal(
    Id: Option<int>,
    title: Option<string>,
    targetAmount: Option<int>,
    currentAmount: Option<int>,
    deadline: Option<string>,
    createdAt: Option<string>)

  /** The mapping every read applies: `title_c || Name`, so the title is the
      stored one when that is a non-empty string and the record's `Name`
      otherwise; every other field is read as stored. */
  function FromRecord(r: SavingsGoalRecord): (g: SavingsGoal)
    ensures IsTruthy(r.title_c) ==> g.title == r.title_c
    ensures !IsTruthy(r.title_c) ==> g.title == r.Name
    ensures g.Id == r.Id && g.targetAmount == r.target_amount_c && g.currentAmount == r.current_amount_c
         && g.deadline == r.deadline_c && g.createdAt == r.created_at_c
  {
    SavingsGoal(r.Id, Or(r.title_c, r.Name), r.target_amount_c, r.current_amount_c, r.deadline_c, r.created_at_c)
  }

  /** The record `create` sends: the title goes to both `Name` and `title_c`,
      a falsy current amount becomes 0, and `now` is stamped as creation time.
      Mapping it back restores the title, target and deadline. */
  function CreateRecordOf(g: SavingsGoal, now: string): (r: SavingsGoalRecord)
    ensures r.Name == g.title && r.title_c == g.title
    ensures r.current_amount_c == Some(if IsTruthyNum(g.currentAmount) then g.currentAmount.value else 0)
    ensures FromRecord(r) == g.(Id := None, currentAmount := r.current_amount_c, createdAt := Some(now))
  {
    SavingsGoalRecord(None, g.title, g.title, g.targetAmount, Some(OrZero(g.currentAmount)), g.deadline, Some(now))
  }

  /** The record `update` sends: every field but the creation time, with the
      title in both `Name` and `title_c` and the current amount passed
      through as given. Mapping it back restores them. */
  function UpdateRecordOf(id: int, g: SavingsGoal): (r: SavingsGoalRecord)
    ensures r.Name == g.title && r.title_c == g.title
    ensures r.created_at_c == None
    ensures FromRecord(r) == g.(Id := Some(id), createdAt := None)
  {
    SavingsGoalRecord(Some(id), g.title, g.title, g.targetAmount, g.currentAmount, g.deadline, None)
  }

  function GetAll(resp: FetchResponse<SavingsGoalRecord>): (c: Call<seq<SavingsGoal>, SavingsGoalRecord>)
    ensures c.requests == [FetchRecords(Table, Query(Fields, [], [Order("deadline_c", Asc)]))]
    ensures ListSpec(resp, FromRecord, true, c.result, c.notices)
  {
    var o := ListOutcome(resp, FromRecord, true);
    Call([FetchRecords(Table, Query(Fields, [], [Order("deadline_c", Asc)]))], o.result, o.notices)
  }

  function GetById(id: int, resp: RecordResponse<SavingsGoalRecord>): (c: Call<Option<SavingsGoal>, SavingsGoalRecord>)
    ensures c.requests == [GetRecordById(Table, id, Query(Fields, [], []))]
    ensures GetSpec(resp, FromRecord, c.result, c.notices)
  {
    var o := GetOutcome(resp, FromRecord);
    Call([GetRecordById(Table, id, Query(Fields, [], []))], o.result, o.notices)
  }

  /** `now` is the `new Date().toISOString()` stamped into `created_at_c`. */
  function Create(g: SavingsGoal, now: string, resp: RecordResponse<SavingsGoalRecord>): (c: Call<Option<SavingsGoal>, SavingsGoalRecord>)
    ensures c.requests == [CreateRecord(Table, [CreateRecordOf(g, now)])]
    ensures WriteSpec(resp, FromRecord, c.result, c.notices)
  {
    var o := WriteOutcome(resp, FromRecord);
    Call([CreateRecord(Table, [CreateRecordOf(g, now)])], o.result, o.notices)
  }

  function Update(id: int, g: SavingsGoal, resp: RecordResponse<SavingsGoalRecord>): (c: Call<Option<SavingsGoal>, SavingsGoalRecord>)
    ensures c.requests == [UpdateRecord(Table, [UpdateRecordOf(id, g)])]
    ensures WriteSpec(resp, FromRecord, c.result, c.notices)
  {
    var o := WriteOutcome(resp, FromRecord);
    Call([UpdateRecord(Table, [UpdateRecordOf(id, g)])], o.result, o.notices)
  }

  function Delete(id: int, resp: RecordResponse<SavingsGoalRecord>): (c: Call<bool, SavingsGoalRecord>)
    ensures c.requests == [DeleteRecord(Table, [id])]
    ensures DeleteSpec(resp, c.result, c.notices)
  {
    var o := DeleteOutcome(resp);
    Call([DeleteRecord(Table, [id])], o.result, o.notices)
  }

  // ---------------------------------------------------------------------
  // updateAmount
  // ---------------------------------------------------------------------

  /** `Math.max(0, (current || 0) + delta)`: the stored amount plus `delta`,
      floored at zero. */
  function AdjustedAmount(stored: Option<int>, delta: int): (v: int)
    ensures v >= 0
    ensures v >= OrZero(stored) + delta
    ensures v == 0 || v == OrZero(stored) + delta
  {
    var sum := OrZero(stored) + delta;
    if sum > 0 then sum else 0
  }

  /** The partial record `updateAmount` writes: `Id` and `current_amount_c`
      only; every other field is left out of the request. */
  function AmountRecord(id: int, amount: int): (r: SavingsGoalRecord)
    ensures FromRecord(r) == SavingsGoal(Some(id), None, None, Some(amount), None, None)
  {
    SavingsGoalRecord(Some(id), None, None, None, Some(amount), None, None)
  }

  /** The goal was read: the envelope arrived and carries the record. */
  predicate Found(current: RecordResponse<SavingsGoalRecord>) {
    current.Envelope? && current.data.Some?
  }

  /** Read the goal, then write back its adjusted amount. `current` answers the
      read, `write` the update. A goal that cannot be read raises exactly one
      "Savings goal not found" toast and issues no update; a read that throws
      is silent. */
  function UpdateAmount(id: int, amount: int, current: RecordResponse<SavingsGoalRecord>, write: RecordResponse<SavingsGoalRecord>): (c: Call<Option<SavingsGoal>, SavingsGoalRecord>)
    ensures |c.requests| >= 1 && c.requests[0] == GetRecordById(Table, id, Query(AmountFields, [], []))
    ensures !Found(current) ==> |c.requests| == 1 && c.result == None
    ensures current.Envelope? && current.data.None? ==> c.notices == [Toast(Some(NotFoundMessage))]
    ensures current.Thrown? ==> c.notices == []
    ensures Found(current) ==>
      && |c.requests| == 2
      && c.requests[1] == UpdateRecord(Table, [AmountRecord(id, AdjustedAmount(current.data.value.current_amount_c, amount))])
      && WriteSpec(write, FromRecord, c.result, c.notices)
  {
    var read := GetRecordById(Table, id, Query(AmountFields, [], []));
    match current
    case Thrown => Call([read], None, [])
    case Envelope(_, _, data, _) =>
      if data.None? then Call([read], None, [Toast(Some(NotFoundMessage))])
      else
        var newAmount := AdjustedAmount(data.value.current_amount_c, amount);
        var o := WriteOutcome(write, FromRecord);
        Call([read, UpdateRecord(Table, [AmountRecord(id, newAmount)])], o.result, o.notices)
  }

  /** What `updateAmount` writes: a single record whose only fields are the
      goal's `Id` and the new amount, which is never negative, equals the old
      amount (missing counts as 0) plus `amount` whenever that is
      non-negative, and is 0 otherwise. */
  lemma UpdateAmountWritesOnlyTheClampedAmount(id: int, amount: int, current: RecordResponse<SavingsGoalRecord>, write: RecordResponse<SavingsGoalRecord>)
    requires Found(current)
    ensures var c := UpdateAmount(id, amount, current, write);
      var before := OrZero(current.data.value.current_amount_c);
      && c.requests[1].UpdateRecord?
      && |c.requests[1].records| == 1
      && var r := c.requests[1].records[0];
         && r.Id == Some(id)
         && r.current_amount_c.Some?
         && r.current_amount_c.value >= 0
         && (before + amount >= 0 ==> r.current_amount_c.value == before + amount)
         && (before + amount < 0 ==> r.current_amount_c.value == 0)
         && r.Name == None && r.title_c == None && r.target_amount_c == None
         && r.deadline_c == None && r.created_at_c == None
  {
  }
}
