# Record gateway of the personal-finance dashboard, in Dafny

The dashboard keeps transactions, budgets, categories, savings goals and bank
accounts in a hosted record store. Five service modules talk to it. Each one
maps its camelCase entity to and from the store's `_c`-suffixed wire record
and builds the request for every operation. It then turns the store's
response envelope into one soft result (an entity, `null`, `true`/`false`, or
`[]`) plus the toasts shown to the user.

This project models those services as total, pure functions:

    (input, response(s)) -> Call(requests issued, result, toasts raised)

- `js.dfy` (`Js`): absent (`undefined`) fields as `Option`. It also gives the
  truthiness that `||` and `if (x)` test: `undefined` and `""` are falsy
  strings, `undefined` and `0` are falsy numbers. Template interpolation is
  modelled too (`undefined` prints as "undefined").
- `store.dfy` (`Store`): the requests the services build (`fetchRecords`,
  `getRecordById`, `createRecord`, `updateRecord`, `deleteRecord`, with
  fields, `where` and `orderBy`). It also holds the response envelope
  `{success, message, data, results[{success, data, message, errors}]}` plus
  an extra `Thrown` variant for a call that throws, and the toasts. `Thrown`
  also covers a `null` or `undefined` response where the code reads it with
  a plain `.`. Where it reads only through `?.` (`getById`, the read in
  `updateAmount`), such a response behaves like an envelope without `data`.
  A string or number response has no `success` and so behaves like a
  rejected envelope whose message is `undefined`.
- `gateway.dfy` (`Gateway`): the logic all five services repeat:
  - splitting batch results into succeeded and failed;
  - "first success wins";
  - the toasts raised for failed entries;
  - the delete predicate;
  - one declarative spec predicate per kind of operation (`ListSpec`,
    `GetSpec`, `WriteSpec`, `DeleteSpec`, `FirstResultSpec`).
- `budgets.dfy`, `transactions.dfy`, `savings_goals.dfy`, `categories.dfy`,
  `bank_accounts.dfy`: one module per service. Each has its table, field
  list, wire record, entity, mapping in both directions and every operation.
  Budgets adds the composite-key upsert. Savings goals add the clamped
  read-modify-write `updateAmount`. Bank accounts add `getTotalBalance`.
- `scenarios.dfy`: concrete cases that pin down constants and behaviour.
  They cover a rejected envelope, an empty table, a mixed batch, a failed
  delete, the savings floor and a total balance.

Money is whole cents (`int`). The entity field `type` is called `kind`,
because `type` is a Dafny keyword. The wire field keeps its name, `type_c`.

Behaviour of the code worth knowing:

- `getById` never looks at `success`. It maps `data` whenever `data` is
  present.
- `create`/`update` return the first successful entry's data, mapped. If that
  entry has no `data`, the mapping throws. The service catches the throw and
  returns `null`, but the failure toasts already raised stay. So the result
  is non-null exactly when the first successful entry carries data. It is
  "non-null iff some entry succeeded" only when successful entries echo their
  record (`Gateway.WriteSucceedsIffSomeEntrySucceeded`).
- `getAll`, `create`, `update`, `delete` and the upsert's write raise
  `toast.error(response.message)` on a failed envelope, even when that
  message is `undefined`. The filtered reads (`getByMonth`,
  `getByCategory`, `getByType`), the upsert's search and the read in
  `updateAmount` never toast a failed envelope, and `getById` never looks
  at `success` at all. A record's message is toasted only when truthy.
- All five `delete`s use the same predicate: true iff the envelope succeeded,
  `results` is present and at least one entry succeeded.
- `upsertBudget` updates the first match of the search whenever there is at
  least one match, not only when there is exactly one. A rejected search is
  silent and falls through to create. A search that throws ends the call
  with `null` and no write. Only `results[0]` decides the write's outcome,
  and failed entries raise no toasts.
- On create and update, a failed record raises one toast per entry of its
  `errors` list plus one for a truthy message (`Gateway.NoticeCount`). So
  "N - K toasts for N results with K successes" holds exactly as stated
  only when no failed record lists a field error; in general the field
  errors add to it (`Gateway.NoticesPerFailedRecordAndFieldError`).
- `upsertBudget` passes its arguments through unchecked. Without a category
  it searches for `undefined` and writes "undefined Budget".

## Model

| member | source | states |
|---|---|---|
| Gateway.Successful | src/services/api/budgetService.js:110 | every kept entry is a successful entry of the batch, and every successful entry is kept |
| Gateway.Failed | src/services/api/budgetService.js:111 | every kept entry is a failed entry of the batch, and every failed entry is kept |
| Gateway.PartitionKeepsEveryResult | src/services/api/budgetService.js:110-111 | the succeeded and failed lists together hold every result exactly as often as the batch does (multiset), so their lengths add up to the batch length |
| Gateway.FirstSuccessfulIsEarliest | src/services/api/budgetService.js:121-122 | `successful[0]` is the batch entry at the earliest index whose `success` is true |
| Gateway.SomeSuccessHasAFirst | src/services/api/budgetService.js:121-122 | a batch holding any successful entry has an earliest successful entry, so `successful[0]` exists whenever some entry succeeded |
| Gateway.SomeSuccessIffSuccessfulNonEmpty | src/services/api/budgetService.js:121 | `successful.length > 0` exactly when some entry of the batch succeeded |
| Gateway.NoticesOf | src/services/api/budgetService.js:224-226 | without field errors (the delete path), every toast raised for failed records is a record message, and that message is non-empty |
| Gateway.FailureNotices | src/services/api/budgetService.js:113-118 | a batch whose entries all succeeded raises no toast; on the delete path only non-empty record messages are toasted |
| Gateway.NoticesOfMembership | src/services/api/budgetService.js:115-118 | a toast is in the `forEach` output exactly when some listed record raises it |
| Gateway.FailureNoticesComeFromFailedRecords | src/services/api/budgetService.js:113-118 | a toast is raised for a batch iff some failed entry raises it (field error or truthy message); succeeded entries never do |
| Gateway.OneNoticeEach | src/services/api/budgetService.js:115-118 | failed records that each carry a message and no field errors raise one toast each |
| Gateway.OneNoticePerFailedRecord | src/services/api/budgetService.js:113-118 | in that case, a batch of N results with K successes raises exactly N - K toasts |
| Gateway.NoticeCount | src/services/api/budgetService.js:115-118 | failed records raise, in total, one toast per listed field error (an absent or empty `errors` list raises none) plus one per truthy message |
| Gateway.NoticesPerFailedRecordAndFieldError | src/services/api/budgetService.js:110-118 | when every failed entry has a truthy message, a batch of N results with K successes raises N - K message toasts plus one toast per field error of the failed entries |
| Gateway.ListOutcome | src/services/api/budgetService.js:25-37 | accepted envelope with data: each record mapped, in order, same length; otherwise `[]`; a rejected envelope toasts its message once when the operation notifies, never otherwise |
| Gateway.GetOutcome | src/services/api/budgetService.js:65-76 | result present iff the envelope carries `data` (whatever `success` says), and then it is `data` mapped; never a toast |
| Gateway.WriteOutcome | src/services/api/budgetService.js:103-133 | non-null iff the envelope is accepted and the earliest successful entry carries data, and then equals that data mapped; toasts are the rejected envelope's message or the failed entries' field errors and messages |
| Gateway.DeleteOutcome | src/services/api/budgetService.js:212-231 | true iff the envelope is accepted, `results` is present and some entry succeeded; toasts are the rejected envelope's message or failed entries' non-empty messages, never field errors |
| Gateway.FirstResultOutcome | src/services/api/budgetService.js:322-337 | non-null iff the envelope is accepted and `results[0]` exists, succeeded and carries data; later entries are ignored; only a rejected envelope toasts |
| Gateway.WriteSucceedsIffSomeEntrySucceeded | src/services/api/budgetService.js:109-133 | when successful entries carry their data, a write is non-null iff the envelope is accepted and at least one entry succeeded |
| Gateway.WriteToastsOnlyForFailures | src/services/api/budgetService.js:113-133 | an accepted write whose entries all succeeded raises no toast; a write whose entries all failed (or has none) returns null |
| Budgets.ToRecord | src/services/api/budgetService.js:91-99 | the written `Name` is the category followed by " Budget" ("undefined Budget" when absent); mapping the record back gives exactly the id, category, monthlyLimit, month and year written |
| Budgets.RecordRoundTrip | src/services/api/budgetService.js:31-37 | reading a record and writing the budget back reproduces the record except for `Name`, which is recomputed from the category |
| Budgets.GetAll | src/services/api/budgetService.js:12-37 | fetches the six budget fields unfiltered and unordered; each record maps to category/monthlyLimit/month/year from the matching `_c` fields; missing data gives `[]`; a rejected envelope gives `[]` and exactly one toast with its message |
| Budgets.GetById | src/services/api/budgetService.js:52-76 | fetches by id; the mapped record iff data is present, otherwise null; no toast |
| Budgets.Create | src/services/api/budgetService.js:91-133 | sends one record without Id; the write contract: first success wins, failures toast field errors and messages |
| Budgets.Update | src/services/api/budgetService.js:148-191 | sends one record carrying the id; same write contract as create |
| Budgets.Delete | src/services/api/budgetService.js:206-231 | sends the one id; true iff some result succeeded on an accepted envelope; failed deletes toast only their messages |
| Budgets.GetByMonth | src/services/api/budgetService.js:246-273 | filters `month_c` EqualTo the argument (`undefined` when the argument is absent); on a rejected envelope returns `[]` with no toast |
| Budgets.Upsert | src/services/api/budgetService.js:289-370 | searches with category/month/year EqualTo; updates `data[0].Id` iff the search was accepted with at least one row, otherwise creates; each argument may be absent and is then sent as `undefined`; a throwing search writes nothing and returns null silently; only `results[0]` decides |
| Budgets.UpsertWritesTheKeyedBudget | src/services/api/budgetService.js:306-347 | after a search that answered, exactly one write follows: an update iff a match was found, otherwise a create; it carries the given category, limit, month and year, which read back unchanged |
| Budgets.SearchQuery | src/services/api/budgetService.js:289-302 | the search selects the five key and limit fields (no `Name`), is unordered, and has exactly three single-valued EqualTo clauses on `category_c`, `month_c`, `year_c` carrying the given category, month and year; each absent argument is sent as `undefined` |
| Budgets.FoundExisting | src/services/api/budgetService.js:306 | a match is found exactly when the search was accepted and the silent list read of its data would list at least one budget |
| Budgets.UpsertWithoutCategoryIsNamedUndefined | src/services/api/budgetService.js:298-312 | an upsert without a category searches for `undefined` and writes the name "undefined Budget" |
| Transactions.ToRecord | src/services/api/transactionService.js:100-110 | `Name` is the description when truthy, else "Transaction"; `description_c` carries the description exactly as given; mapping back restores amount, category, type, date, the given creation stamp, and the description when truthy, else "Transaction" |
| Transactions.FromRecord | src/services/api/transactionService.js:34-42 | the description is `description_c` when that is a non-empty string and the record's `Name` otherwise; every other field is read as stored |
| Transactions.DescriptionRoundTripsIffTruthy | src/services/api/transactionService.js:102-106 | a written description reads back unchanged iff it is a non-empty string |
| Transactions.GetAll | src/services/api/transactionService.js:12-42 | requests `date_c` DESC ordering; records mapped in order; rejected envelope gives `[]` plus one toast, a thrown call gives `[]` with none |
| Transactions.GetById | src/services/api/transactionService.js:57-85 | the mapped record iff data is present, otherwise null; no toast |
| Transactions.Create | src/services/api/transactionService.js:100-146 | sends one record stamped `created_at_c` with the given current time; write contract |
| Transactions.Update | src/services/api/transactionService.js:161-207 | sends one record with the id and never a `created_at_c`; write contract |
| Transactions.Delete | src/services/api/transactionService.js:222-247 | true iff some result succeeded on an accepted envelope; false on a rejected one, with its message toasted |
| Transactions.GetByMonth | src/services/api/transactionService.js:262-293 | filters `date_c` StartsWith the argument (`undefined` when the argument is absent); rejected envelope gives `[]` silently |
| Transactions.GetByCategory | src/services/api/transactionService.js:308-339 | filters `category_c` EqualTo the argument (`undefined` when the argument is absent); rejected envelope gives `[]` silently |
| SavingsGoals.CreateRecordOf | src/services/api/savingsGoalService.js:96-104 | writes the title to both `Name` and `title_c`; a falsy current amount is written as 0; mapping back restores title, target and deadline, with the stamped creation time |
| SavingsGoals.UpdateRecordOf | src/services/api/savingsGoalService.js:155-163 | writes the title to both `Name` and `title_c`, sends no creation time and passes the current amount through as given; mapping back restores every written field |
| SavingsGoals.FromRecord | src/services/api/savingsGoalService.js:33-40 | the title is `title_c` when that is a non-empty string and the record's `Name` otherwise; every other field is read as stored |
| SavingsGoals.GetAll | src/services/api/savingsGoalService.js:12-40 | requests `deadline_c` ASC ordering; title read from `title_c`, or from `Name` when `title_c` is falsy; rejected envelope gives `[]` plus one toast |
| SavingsGoals.GetById | src/services/api/savingsGoalService.js:55-81 | the mapped record iff data is present, otherwise null; no toast |
| SavingsGoals.Create | src/services/api/savingsGoalService.js:96-139 | sends the create record; write contract |
| SavingsGoals.Update | src/services/api/savingsGoalService.js:155-198 | sends the update record; write contract |
| SavingsGoals.Delete | src/services/api/savingsGoalService.js:214-239 | true iff some result succeeded on an accepted envelope |
| SavingsGoals.AdjustedAmount | src/services/api/savingsGoalService.js:269-270 | the new amount is never negative, is at least the old amount (missing as 0) plus the delta, and equals either that sum or 0 |
| SavingsGoals.AmountRecord | src/services/api/savingsGoalService.js:272-277 | the partial record reads back as a goal with only its id and the new current amount; every other field is absent |
| SavingsGoals.UpdateAmount | src/services/api/savingsGoalService.js:254-312 | reads `Id` and `current_amount_c`; a goal without data toasts "Savings goal not found" once, returns null and sends no update; a throwing read is silent; otherwise writes the clamped amount and follows the write contract |
| SavingsGoals.UpdateAmountWritesOnlyTheClampedAmount | src/services/api/savingsGoalService.js:269-277 | the single written record carries only `Id` and the new amount; that amount is the old one plus the delta when non-negative, 0 otherwise |
| Categories.ToRecord | src/services/api/categoryService.js:91-98 | the name goes to both `Name` and `name_c`, so it reads back unchanged, empty or not; every other written field reads back as written |
| Categories.FromRecord | src/services/api/categoryService.js:31-37 | the name is `name_c` when that is a non-empty string and the record's `Name` otherwise; every other field is read as stored |
| Categories.GetAll | src/services/api/categoryService.js:12-37 | unordered fetch; name read from `name_c`, or from `Name` when `name_c` is falsy; rejected envelope gives `[]` plus one toast |
| Categories.GetById | src/services/api/categoryService.js:52-76 | the mapped record iff data is present, otherwise null; no toast |
| Categories.Create | src/services/api/categoryService.js:91-133 | always sends `is_custom_c = true`, whatever the input; write contract |
| Categories.Update | src/services/api/categoryService.js:148-191 | passes `isCustom` through unchanged; write contract |
| Categories.Delete | src/services/api/categoryService.js:206-231 | true iff some result succeeded on an accepted envelope |
| Categories.GetByType | src/services/api/categoryService.js:246-273 | filters `type_c` EqualTo the argument (`undefined` when the argument is absent); rejected envelope gives `[]` silently |
| BankAccounts.FromRecord | src/services/api/bankAccountService.js:74-83 | the balance is the stored one when that is non-zero and 0 when it is absent or zero, so it is never undefined; every other field is read as stored, `name` from `Name` |
| BankAccounts.ToRecord | src/services/api/bankAccountService.js:98-107 | `Name` is `name`, or `accountName` when `name` is falsy; `balance_c` is `balance`, or 0 when falsy; account name, number, bank name and tags read back as written |
| BankAccounts.GetAll | src/services/api/bankAccountService.js:12-41 | requests `account_name_c` ASC ordering; every listed balance is defined; rejected envelope gives `[]` plus one toast |
| BankAccounts.GetById | src/services/api/bankAccountService.js:56-83 | null without a toast when there is no data, otherwise the mapped record |
| BankAccounts.Create | src/services/api/bankAccountService.js:98-143 | sends the mapped record without Id; write contract |
| BankAccounts.Update | src/services/api/bankAccountService.js:158-204 | sends the mapped record with the id; write contract |
| BankAccounts.Delete | src/services/api/bankAccountService.js:219-248 | true iff some result succeeded on an accepted envelope; false on a rejected one |
| BankAccounts.TotalOf | src/services/api/bankAccountService.js:254 | the reference left fold of `balance || 0`; when no balance is negative the total is non-negative and at least any single balance |
| BankAccounts.TotalOfAppend | src/services/api/bankAccountService.js:254 | the left-fold total of a concatenation is the sum of the two totals |
| BankAccounts.TotalIgnoresOrder | src/services/api/bankAccountService.js:251-258 | two listings holding the same accounts (as a multiset) have the same total, so, in whole cents, the `account_name_c` ordering of `getAll` does not affect `getTotalBalance` |
| BankAccounts.GetTotalBalance | src/services/api/bankAccountService.js:251-258 | the reduce loop equals the reference sum of the balances (0 when falsy) over what `getAll` returned, with its requests and toasts; 0 when `getAll` yields `[]` |
| Scenarios.RejectedEnvelopeToastsItsMessage | src/services/api/budgetService.js:25-29 | `success: false, message: "quota exceeded"` gives `[]` and exactly one toast "quota exceeded" |
| Scenarios.EmptyTableIsEmptyList | src/services/api/transactionService.js:34-42 | an accepted envelope with empty data gives `[]` and no toast |
| Scenarios.MixedBatchReturnsFirstSuccess | src/services/api/budgetService.js:109-130 | a failed entry before two successes toasts its field error then its message, and the first success is returned |
| Scenarios.UpsertAndCreateReadABatchDifferently | src/services/api/budgetService.js:109-130 | the batch answer `[failed, succeeded]` gives `null` and no toast to an upsert that found a match (only `results[0]` counts, budgetService.js:322-337) but the successful budget and the failed message toast to `create` |
| Scenarios.FailedDeleteToastsMessageOnly | src/services/api/transactionService.js:234-244 | a failed delete entry with a field error and a message toasts only the message and returns false |
| Scenarios.SavingsFloorAtZero | src/services/api/savingsGoalService.js:269-270 | current 50.00 adjusted by -80.00 is stored as 0; a missing current amount counts as 0 |
| Scenarios.TotalBalanceExample | src/services/api/bankAccountService.js:254 | balances 100.50, -20 and 0 total 80.50 |

## Left out

- Construction of the SDK client and the environment configuration are not
  modelled. Every client call is a response value passed in, so the model
  does not depend on them.
- The store's own behaviour is not modelled: what `where`, `orderBy` and
  paging select, and what is persisted. Only the request the code builds is
  modelled. For that reason, "two sequential upserts leave one record" is not
  stated: it depends on the store.
- `console.error` logging has no effect on results and is dropped.
- The exact text of the field-error toast `${error.fieldLabel}: ${error}` is
  not modelled. It is represented by the field label alone.
- async/await and the races in `upsertBudget` and `updateAmount` are left
  out. Both are read-then-write with no lock, which is a concurrency
  property, not sequential logic.
- Floating-point money is replaced by whole cents. Adding doubles depends
  on order (0.1 + 0.2 + 0.3 differs from 0.3 + 0.2 + 0.1), so the order
  independence of the total holds for cents, not for the program's numbers. `NaN` (also falsy in
  JavaScript) cannot arise, and `parseFloat` in the pages is not part of
  this model.
- Each field has exactly one type. The model does not cover JavaScript
  values of an unexpected type, such as a string balance, or `data` that is
  not an object or array.
- `parseInt(id)` is not modelled: ids arrive as integers.
- `new Date().toISOString()` is the parameter `now`, because it is
  nondeterministic.
- An exception carries no data into the model (`Thrown`). Its details are
  only logged.
- The currency formatter the pages import from `src/utils/formatters` is
  not part of this model, and no account-number masking helper appears in
  the modelled services. The pages
  (`BankAccounts.jsx`, `Sidebar.jsx`, `NotFound.jsx`) are React rendering and
  form state, and are left out too.
- No service has a batch delete that counts deletions: every `delete` takes
  a single id. A count-based delete is therefore not modelled.
