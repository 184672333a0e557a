/** Concrete instances of the gateway's behaviour, one per documented case:
    a rejected envelope, an empty table, a mixed batch, a failed delete, the
    savings floor and the total balance. Amounts are in cents. */
module Scenarios {
  import opened Js
  import opened Store
  import opened Gateway
  import Budgets
  import Transactions
  import SavingsGoals
  import BankAccounts

  /** A rejected envelope: `getAll` answers `[]` and raises one toast with the
      envelope's message. */
  lemma RejectedEnvelopeToastsItsMessage()
    ensures var c := Budgets.GetAll(Envelope(false, Some("quota exceeded"), None, None));
      c.result == [] && c.notices == [Toast(Some("quota exceeded"))]
  {
  }

  /** An empty table is an empty list, not an error. */
  lemma EmptyTableIsEmptyList()
    ensures var c := Transactions.GetAll(Envelope(true, None, Some([]), None));
      c.result == [] && c.notices == []
  {
  }

  /** A batch with a failed entry ahead of two successful ones: the failed
      entry's field error and message are toasted, and the first successful
      entry is returned. */
  lemma MixedBatchReturnsFirstSuccess()
    ensures
      var first := Budgets.BudgetRecord(Some(1), Some("Food Budget"), Some("Food"), Some(40000), Some("2024-05"), Some(2024));
      var second := Budgets.BudgetRecord(Some(2), Some("Rent Budget"), Some("Rent"), Some(90000), Some("2024-05"), Some(2024));
      var rejected := RecordResult(false, None, Some("limit too high"), Some([FieldError(Some("Monthly Limit"))]));
      var resp := Envelope(true, None, None, Some([rejected, RecordResult(true, Some(first), None, None), RecordResult(true, Some(second), None, None)]));
      var c := Budgets.Create(Budgets.FromRecord(first), resp);
      && c.result == Some(Budgets.FromRecord(first))
      && c.notices == [FieldErrorToast(Some("Monthly Limit")), Toast(Some("limit too high"))]
  {
    var first := Budgets.BudgetRecord(Some(1), Some("Food Budget"), Some("Food"), Some(40000), Some("2024-05"), Some(2024));
    var second := Budgets.BudgetRecord(Some(2), Some("Rent Budget"), Some("Rent"), Some(90000), Some("2024-05"), Some(2024));
    var rejected := RecordResult(false, None, Some("limit too high"), Some([FieldError(Some("Monthly Limit"))]));
    var ok1 := RecordResult(true, Some(first), None, None);
    var ok2 := RecordResult(true, Some(second), None, None);
    var rs := [rejected, ok1, ok2];
    assert IsFirstSuccess(rs, 1);
    assert rs[1..] == [ok1, ok2] && rs[1..][1..] == [ok2] && rs[1..][1..][1..] == [];
    assert Failed([ok2]) == [];
    assert Failed([ok1, ok2]) == [];
    assert Failed(rs) == [rejected];
  }

  /** The same batch answer `[failed, succeeded]` resolves differently: the
      upsert looks only at `results[0]` and gives `null` without a toast,
      while `create` returns the first successful entry and toasts the
      failed one's message. */
  lemma UpsertAndCreateReadABatchDifferently()
    ensures
      var saved := Budgets.BudgetRecord(Some(7), Some("Food Budget"), Some("Food"), Some(40000), Some("2024-05"), Some(2024));
      var batch := Envelope(true, None, None, Some([RecordResult(false, None, Some("duplicate"), None), RecordResult(true, Some(saved), None, None)]));
      var found := Envelope(true, None, Some([saved]), None);
      var u := Budgets.Upsert(Some("Food"), Some(40000), Some("2024-05"), Some(2024), found, batch);
      var c := Budgets.Create(Budgets.FromRecord(saved), batch);
      && u.result == None && u.notices == []
      && c.result == Some(Budgets.FromRecord(saved)) && c.notices == [Toast(Some("duplicate"))]
  {
    var saved := Budgets.BudgetRecord(Some(7), Some("Food Budget"), Some("Food"), Some(40000), Some("2024-05"), Some(2024));
    var failed: RecordResult<Budgets.BudgetRecord> := RecordResult(false, None, Some("duplicate"), None);
    var ok := RecordResult(true, Some(saved), None, None);
    var rs := [failed, ok];
    assert IsFirstSuccess(rs, 1);
    assert rs[1..] == [ok] && rs[1..][1..] == [];
    assert Failed([ok]) == [];
    assert Failed(rs) == [failed];
  }

  /** A failed delete toasts its record message but not its field errors. */
  lemma FailedDeleteToastsMessageOnly()
    ensures
      var rejected: RecordResult<Transactions.TransactionRecord> := RecordResult(false, None, Some("in use"), Some([FieldError(Some("Id"))]));
      var c := Transactions.Delete(5, Envelope(true, None, None, Some([rejected])));
      c.result == false && c.notices == [Toast(Some("in use"))]
  {
    var rejected: RecordResult<Transactions.TransactionRecord> := RecordResult(false, None, Some("in use"), Some([FieldError(Some("Id"))]));
    assert Failed([rejected]) == [rejected];
  }

  /** A goal holding 50 adjusted by -80 is written back as 0. */
  lemma SavingsFloorAtZero()
    ensures SavingsGoals.AdjustedAmount(Some(5000), -8000) == 0
    ensures SavingsGoals.AdjustedAmount(None, 2500) == 2500
  {
  }

  /** An account holding `balance` and nothing else. */
  function AccountWith(balance: int): BankAccounts.BankAccount {
    BankAccounts.BankAccount(None, None, None, None, None, None, Some(balance))
  }

  /** Balances 100.50, -20 and 0 total 80.50. */
  lemma TotalBalanceExample()
    ensures BankAccounts.TotalOf([AccountWith(10050), AccountWith(-2000), AccountWith(0)]) == 8050
  {
    var accounts := [AccountWith(10050), AccountWith(-2000), AccountWith(0)];
    assert accounts[..2] == [AccountWith(10050), AccountWith(-2000)];
    assert accounts[..2][..1] == [AccountWith(10050)];
    assert accounts[..2][..1][..0] == [];
    assert BankAccounts.TotalOf([AccountWith(10050)]) == 10050;
    assert BankAccounts.TotalOf(accounts[..2]) == 8050;
  }
}
