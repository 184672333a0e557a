/** `bankAccountService`: accounts in `bank_accounts_c`, whose balance always
    reads back as a number, and the total balance over all accounts. */
module BankAccounts {
  import opened Js
  import opened Store
  import opened Gateway

  const Table := "bank_accounts_c"

  const Fields: seq<string> := ["Id", "Name", "Tags", "account_name_c", "account_number_c", "bank_name_c", "balance_c"]

  /** A row of `bank_accounts_c` as the store sends and receives it. `Tags` is
      a comma-separated string. */
  datatype BankAccountRecord = BankAccountRecord(
    Id: Option<int>,
    Name: Option<string>,
    Tags: Option<string>,
    account_name_c: Option<string>,
    account_number_c: Option<string>,
    bank_name_c: Option<string>,
    balance_c: Option<int>)

  /** An account as the pages see it; balances are in cents. */
  datatype BankAccount = BankAccount(
    Id: Option<int>,
    name: Option<string>,
    tags: Option<string>,
    accountName: Option<string>,
    accountNumber: Option<string>,
    bankName: Option<string>,
    balance: Option<int>)

  /** The mapping every read applies: `balance_c || 0`, so a mapped balance is
      never undefined, and any non-zero balance is the stored one. */
  function FromRecord(r: BankAccountRecord): (a: BankAccount)
    ensures a.balance.Some?
    ensures a.balance.value != 0 ==> a.balance == r.balance_c
    ensures IsTruthyNum(r.balance_c) ==> a.balance == r.balance_c
    ensures !IsTruthyNum(r.balance_c) ==> a.balance == Some(0)
    ensures a.Id == r.Id && a.name == r.Name && a.tags == r.Tags && a.accountName == r.account_name_c
         && a.accountNumber == r.account_number_c && a.bankName == r.bank_name_c
  {
    BankAccount(r.Id, r.Name, r.Tags, r.account_name_c, r.account_number_c, r.bank_name_c, Some(OrZero(r.balance_c)))
  }

  /** The record `create` (`id` absent) and `update` send:
      `Name = name || accountName` and `balance_c = balance || 0`. Mapping it
      back restores account name, number, bank name and tags unchanged. */
  function ToRecord(id: Option<int>, a: BankAccount): (r: BankAccountRecord)
    ensures r.Name == (if IsTruthy(a.name) then a.name else a.accountName)
    ensures r.balance_c == Some(if IsTruthyNum(a.balance) then a.balance.value else 0)
    ensures FromRecord(r) == a.(Id := id, name := r.Name, balance := r.balance_c)
  {
    BankAccountRecord(id, Or(a.name, a.accountName), a.tags, a.accountName, a.accountNumber, a.bankName, Some(OrZero(a.balance)))
  }

  function GetAll(resp: FetchResponse<BankAccountRecord>): (c: Call<seq<BankAccount>, BankAccountRecord>)
    ensures c.requests == [FetchRecords(Table, Query(Fields, [], [Order("account_name_c", Asc)]))]
    ensures ListSpec(resp, FromRecord, true, c.result, c.notices)
    ensures forall i :: 0 <= i < |c.result| ==> c.result[i].balance.Some?
  {
    var o := ListOutcome(resp, FromRecord, true);
    Call([FetchRecords(Table, Query(Fields, [], [Order("account_name_c", Asc)]))], o.result, o.notices)
  }

  /** Without `data` the answer is `null` and nothing is toasted. */
  function GetById(id: int, resp: RecordResponse<BankAccountRecord>): (c: Call<Option<BankAccount>, BankAccountRecord>)
    ensures c.requests == [GetRecordById(Table, id, Query(Fields, [], []))]
    ensures GetSpec(resp, FromRecord, c.result, c.notices)
  {
    var o := GetOutcome(resp, FromRecord);
    Call([GetRecordById(Table, id, Query(Fields, [], []))], o.result, o.notices)
  }

  function Create(a: BankAccount, resp: RecordResponse<BankAccountRecord>): (c: Call<Option<BankAccount>, BankAccountRecord>)
    ensures c.requests == [CreateRecord(Table, [ToRecord(None, a)])]
    ensures WriteSpec(resp, FromRecord, c.result, c.notices)
  {
    var o := WriteOutcome(resp, FromRecord);
    Call([CreateRecord(Table, [ToRecord(None, a)])], o.result, o.notices)
  }

  function Update(id: int, a: BankAccount, resp: RecordResponse<BankAccountRecord>): (c: Call<Option<BankAccount>, BankAccountRecord>)
    ensures c.requests == [UpdateRecord(Table, [ToRecord(Some(id), a)])]
    ensures WriteSpec(resp, FromRecord, c.result, c.notices)
  {
    var o := WriteOutcome(resp, FromRecord);
    Call([UpdateRecord(Table, [ToRecord(Some(id), a)])], o.result, o.notices)
  }

  function Delete(id: int, resp: RecordResponse<BankAccountRecord>): (c: Call<bool, BankAccountRecord>)
    ensures c.requests == [DeleteRecord(Table, [id])]
    ensures DeleteSpec(resp, c.result, c.notices)
  {
    var o := DeleteOutcome(resp);
    Call([DeleteRecord(Table, [id])], o.result, o.notices)
  }

  // ---------------------------------------------------------------------
  // getTotalBalance
  // ---------------------------------------------------------------------

  /** Reference sum of `balance || 0` over `accounts`, folded from the left
      as `reduce` does. Accounts that all hold a non-negative balance total
      at least as much as any one of them. */
  function TotalOf(accounts: seq<BankAccount>): (t: int)
    ensures (forall i :: 0 <= i < |accounts| ==> OrZero(accounts[i].balance) >= 0) ==>
      t >= 0 && forall i :: 0 <= i < |accounts| ==> t >= OrZero(accounts[i].balance)
  {
    if accounts == [] then 0
    else TotalOf(accounts[..|accounts| - 1]) + OrZero(accounts[|accounts| - 1].balance)
  }

  /** The total of a concatenation is the sum of the totals. */
  lemma {:induction false} TotalOfAppend(a: seq<BankAccount>, b: seq<BankAccount>)
    ensures TotalOf(a + b) == TotalOf(a) + TotalOf(b)
    decreases |b|
  {
    if b == [] {
      assert a + b == a;
    } else {
      var n := |b| - 1;
      assert (a + b)[..|a + b| - 1] == a + b[..n];
      TotalOfAppend(a, b[..n]);
    }
  }

  /** The total depends only on which balances are listed, not on their
      order: the `account_name_c` ordering of `getAll` does not change it. */
  lemma {:induction false} TotalIgnoresOrder(a: seq<BankAccount>, b: seq<BankAccount>)
    requires multiset(a) == multiset(b)
    ensures TotalOf(a) == TotalOf(b)
    decreases |a|
  {
    if a == [] {
      assert |b| == |multiset(b)| == 0;
    } else {
      var n := |a| - 1;
      var x := a[n];
      assert a == a[..n] + [x];
      assert x in multiset(b);
      var j :| 0 <= j < |b| && b[j] == x;
      var rest := b[..j] + b[j + 1..];
      assert b == b[..j] + [x] + b[j + 1..];
      assert multiset(a) == multiset(a[..n]) + multiset{x};
      assert multiset(b) == multiset(b[..j]) + multiset{x} + multiset(b[j + 1..]);
      assert multiset(rest) == multiset(b[..j]) + multiset(b[j + 1..]);
      assert multiset(a[..n]) == multiset(a) - multiset{x};
      assert multiset(rest) == multiset(b) - multiset{x};
      TotalIgnoresOrder(a[..n], rest);
      TotalOfAppend(b[..j], b[j + 1..]);
      TotalOfAppend(b[..j] + [x], b[j + 1..]);
      TotalOfAppend(b[..j], [x]);
    }
  }

  /** `getAll`, then `reduce((total, account) => total + (account.balance || 0), 0)`.
      The toasts and requests are those of `getAll`; with no accounts the
      total is 0. */
  method GetTotalBalance(resp: FetchResponse<BankAccountRecord>) returns (c: Call<int, BankAccountRecord>)
    ensures c.requests == GetAll(resp).requests && c.notices == GetAll(resp).notices
    ensures c.result == TotalOf(GetAll(resp).result)
    ensures GetAll(resp).result == [] ==> c.result == 0
  {
    var all := GetAll(resp);
    var accounts := all.result;
    var total := 0;
    var i := 0;
    while i < |accounts|
      invariant 0 <= i <= |accounts|
      invariant total == TotalOf(accounts[..i])
    {
      assert accounts[..i + 1][..i] == accounts[..i];
      total := total + OrZero(accounts[i].balance);
      i := i + 1;
    }
    assert accounts[..i] == accounts;
    c := Call(all.requests, total, all.notices);
  }
}
