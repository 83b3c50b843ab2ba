# Wallets, employees, course scraper and job spider

A Dafny model of four pieces of a Python repository of teaching exercises and scrapers:

- **Crypto wallet ledger**: `Transaction` and `CryptoWallet` objects and the menu script that manages the global `list_wallet`.
  - A wallet holds an ordered history of mutable transaction objects.
  - The wallet supports append, remove by ID, edit of the first match, and a stable sort by amount.
  - It computes aggregates: balance, profit/loss, fees, buy/sell totals, average and maximum.
  - The menu loads wallets from records, builds a new wallet from typed answers, and applies edit, remove and sort to every wallet.
- **Employee menu**: the global list `dsNhanVien` and the accumulator names its options leave behind.
  - Options: load a comma-separated file, add, delete with confirmation, raise or lower salaries, and count, sum, average and maximum.
- **Course scraper**: the per-site accept loop, `safe_text`, search URLs, `learning_mode`, `scroll_to_load`, and the orchestrator's first-seen-wins dedup by link.
- **Jobs spider**: the link filters of `parse` and `parse_listing_selenium`, the next-page and re-render requests, and the field fallbacks and joins of the two detail parsers.

Mutable state is modelled imperatively:
- Python objects whose fields are overwritten become classes: `Transaction`, `CryptoWallet`, `Employee`, and the two menu states `WalletApp` and `EmployeeApp`.
- Each menu branch is a method whose `ensures` ties the new state to a specification function of the old state:
  - wallets: `EditAll`, `RemoveAll`, `SortAll`;
  - employees: `AdjustAll`, `DeleteFrom`, `Loaded`.
- The properties are proved about those functions.
- A whole pass of either menu loop is tied the same way to a pure function of the old state, the choice and the answers (`WalletMenu.Transition`, `EmployeeMenu.Transition`); `TransitionWallets` and `TransitionRoster` prove what a pass can and cannot change.

Keyboard input is modelled as the sequence of lines still to be typed. A branch consumes lines from the front. Running out of lines, or a line that `int()`/`float()` rejects, ends the program with an exception (`Crash`). The employee menu's choice prompt is the exception: its bare `except` catches both cases and shows the menu again.

Files are given as their contents: wallet records for the wallet menu, lines for the employee menu. A missing file is `None`.

The browser and Scrapy are replaced by what their selectors return:
- search pages are sequences of anchors;
- listings and job pages are records of strings and string lists.

`urljoin` is a function parameter.

`strip()` removes Python's full `str.isspace` set (ASCII and Unicode spaces). Digit tests and case folding use the ASCII part of Python's tables.

The model keeps the code's behaviour, including where it departs from what the code evidently intends:
- **Card lookup in the course scraper.** The per-field lookups are meant to be best-effort, a miss giving an empty field rather than an error. However, the card lookup of the Coursera, edX and DataCamp extractors (lines 183, 247 and 310 of the scraper) is outside any `try`. A link without such a card makes the whole site contribute nothing, and the model says so (`Raises`, `ExtractFailsFrom`).
- **Rebound module names in the wallet menu.** Options 3 to 19 loop with `for w in list_wallet`, which rebinds the module name `w`, and option 13 rebinds `tx`. After that, options 1 and 2 raise when they call `w.CryptoWallet` or `tx.Transaction`. The model tracks both names (`WalletApp.Rebind`, `LoadFails`, `AddNewAccepts`).
- **Employee list guards and averages.** The `dsNhanVien.count==0` guards compare a method with 0 and never hold. On an empty list, options 11 to 13 therefore print a name that may never have been bound.
- **Deleting while iterating.** Option 6 removes from the list it iterates over, so the employee right after a removed one is not examined (`DeleteSkipsNext`).

## Model

| member | source | states |
|---|---|---|
| Transactions.Transaction.constructor | Practice/Week_01/Manage_CryptoWallet/Transaction.py:2-8 | sender, recipient and amount are stored as given; the fee is exactly 1% of the amount; ID and type start as None |
| Wallets.SumOfAppend | Practice/Week_01/Manage_CryptoWallet/CryptoWallet.py:29-38 | every aggregate is additive: its value on a concatenated history is the sum of its values on the parts |
| Wallets.BalanceDecomposition | Practice/Week_01/Manage_CryptoWallet/CryptoWallet.py:10-27 | the stored balance equals received minus sent minus the fees of the wallet's transactions, plus the amount of every self-transfer (where the incoming branch wins) |
| Wallets.BalanceWithoutSelfTransfers | Practice/Week_01/Manage_CryptoWallet/CryptoWallet.py:10-27 | without self-transfers the balance is profit/loss (buy minus sell) minus the fees of the wallet's own transactions |
| Wallets.NoSelfTransfers | Practice/Week_01/Manage_CryptoWallet/CryptoWallet.py:10-18 | a history without self-transfers contributes nothing to the self-transfer term of the balance |
| Wallets.FirstWithId | Practice/Week_01/Manage_CryptoWallet/CryptoWallet.py:222-223 | finds the first transaction with the ID: it has the ID, none before it does, and None means no transaction has it |
| Wallets.FirstWithIdSameIds | Practice/Week_01/Manage_CryptoWallet/CryptoWallet.py:222-223 | histories with the same IDs position by position have the same first match, whatever their amounts |
| Wallets.WithoutIdMembers | Practice/Week_01/Manage_CryptoWallet/CryptoWallet.py:239 | the filtered history holds exactly the transactions whose ID differs |
| Wallets.WithoutIdLength | Practice/Week_01/Manage_CryptoWallet/CryptoWallet.py:239 | every transaction is either removed (carries the ID) or kept |
| Wallets.WithoutAbsentId | Practice/Week_01/Manage_CryptoWallet/CryptoWallet.py:239 | removing an ID no transaction carries leaves the history unchanged |
| Wallets.WithoutIdIdempotent | Practice/Week_01/Manage_CryptoWallet/CryptoWallet.py:239 | removing the same ID twice equals removing it once |
| Wallets.WithoutIdSum | Practice/Week_01/Manage_CryptoWallet/CryptoWallet.py:239 | every aggregate of a history is what removing the ID keeps plus what it drops |
| Wallets.EditFirst | Practice/Week_01/Manage_CryptoWallet/CryptoWallet.py:221-230 | the edit keeps the length; with no match nothing changes; otherwise only the first match changes, in amount and fee only |
| Wallets.EditFirstTwice | Practice/Week_01/Manage_CryptoWallet/CryptoWallet.py:221-230 | editing never changes IDs, so the first match stays the same, and a second edit of the same ID overrides the first |
| Wallets.SumOfUpdate | Practice/Week_01/Manage_CryptoWallet/CryptoWallet.py:29-38 | overwriting one transaction moves every aggregate by the difference between its new and old term |
| Wallets.EditFirstFee | Practice/Week_01/Manage_CryptoWallet/CryptoWallet.py:221-230 | after an edit the fee total loses the first match's old fee and gains the new one; without a match it is unchanged |
| Wallets.InsertByAmount | Practice/Week_01/Manage_CryptoWallet/CryptoWallet.py:57 | inserting adds exactly the one element (multiset) |
| Wallets.InsertSorted | Practice/Week_01/Manage_CryptoWallet/CryptoWallet.py:57 | inserting into a non-increasing history keeps it non-increasing |
| Wallets.SortByAmount | Practice/Week_01/Manage_CryptoWallet/CryptoWallet.py:57 | the sorted history is a permutation of the history in non-increasing amount order |
| Wallets.InsertStable | Practice/Week_01/Manage_CryptoWallet/CryptoWallet.py:57 | insertion keeps equal-amount transactions in their order, the new one after them |
| Wallets.SortStable | Practice/Week_01/Manage_CryptoWallet/CryptoWallet.py:57 | the sort is stable: for every amount, the transactions with that amount keep their relative order |
| Wallets.InsertSum | Practice/Week_01/Manage_CryptoWallet/CryptoWallet.py:57 | inserting a transaction adds exactly its term to every aggregate |
| Wallets.SortKeepsSums | Practice/Week_01/Manage_CryptoWallet/CryptoWallet.py:55-57 | sorting changes no aggregate (fees, amounts, buy/sell totals, balance) |
| Wallets.FirstMaxIndex | Practice/Week_01/Manage_CryptoWallet/CryptoWallet.py:52 | `max` with the amount key picks the first transaction whose amount is at least every other amount |
| Wallets.CryptoWallet.constructor | Practice/Week_01/Manage_CryptoWallet/CryptoWallet.py:5-9 | ID, name and balance are stored; the history starts empty whatever history argument is passed |
| Wallets.CryptoWallet.CalculateTotalBalance | Practice/Week_01/Manage_CryptoWallet/CryptoWallet.py:10-18 | the loop sets totalBalance to the sum of amount minus fee over incoming and minus (amount plus fee) over outgoing transactions, returns it, and leaves the history alone |
| Wallets.CryptoWallet.CalculateProfitLoss | Practice/Week_01/Manage_CryptoWallet/CryptoWallet.py:19-27 | the loop's profit/loss equals buy minus sell as `sumValue` reports them |
| Wallets.CryptoWallet.CalculateTotalFee | Practice/Week_01/Manage_CryptoWallet/CryptoWallet.py:29-30 | the total fee is the sum of the fees of the history; appending adds the new fee, removing subtracts the fees of the removed transactions, sorting keeps it (contracts of those methods), and an edit swaps the first match's fee (`EditFirstFee`) |
| Wallets.CryptoWallet.CountTransactions | Practice/Week_01/Manage_CryptoWallet/CryptoWallet.py:32-33 | the count is the number of transactions in the history; appending adds one, removing subtracts the number of transactions with the ID, editing and sorting keep it |
| Wallets.CryptoWallet.SumValue | Practice/Week_01/Manage_CryptoWallet/CryptoWallet.py:35-38 | buy is the total amount received by the wallet, sell the total amount it sent; appending adds the new transaction's share, removing subtracts the removed transactions' shares, sorting keeps both |
| Wallets.CryptoWallet.AvgValue | Practice/Week_01/Manage_CryptoWallet/CryptoWallet.py:40-43 | 0 on an empty history; otherwise the average times the count is the total amount |
| Wallets.CryptoWallet.FindMaxTransaction | Practice/Week_01/Manage_CryptoWallet/CryptoWallet.py:49-53 | None exactly on an empty history; otherwise the ID and amount of the first transaction whose amount is at least every other (the pair, not the formatted text) |
| Wallets.CryptoWallet.ToDict | Practice/Week_01/Manage_CryptoWallet/CryptoWallet.py:203-219 | the record holds the wallet's three fields and the six fields of each transaction in history order |
| Wallets.CryptoWallet.AddTransaction | Practice/Week_01/Manage_CryptoWallet/CryptoWallet.py:233-235 | the object is appended at the end, earlier entries unchanged and in order; the fee total grows by its fee, the count by one, buy and sell by its share; the other fields are unchanged |
| Wallets.CryptoWallet.RemoveTransaction | Practice/Week_01/Manage_CryptoWallet/CryptoWallet.py:238-239 | the new history is `Kept` of the old objects, whose records are exactly those whose ID differs, in order; fee total, count, buy and sell drop by exactly the removed transactions' share; distinct objects stay distinct; the other fields are unchanged |
| Wallets.CryptoWallet.EditTransaction | Practice/Week_01/Manage_CryptoWallet/CryptoWallet.py:221-230 | reports whether some transaction has the ID; only the first such object gets the new amount and fee; with distinct objects the history is `EditFirst` of the old one; without a match nothing changes; the count is unchanged |
| Wallets.CryptoWallet.SortTransactions | Practice/Week_01/Manage_CryptoWallet/CryptoWallet.py:55-58 | with key "value" the history becomes the stable non-increasing sort of the old one; any other key leaves it untouched; either way the same objects, and fee total, count, buy and sell are unchanged |
| Wallets.RecordsAppend | Practice/Week_01/Manage_CryptoWallet/CryptoWallet.py:233-235 | the records of appended objects are the appended records |
| Wallets.Kept | Practice/Week_01/Manage_CryptoWallet/CryptoWallet.py:239 | the comprehension on objects keeps a sub-multiset of the objects and keeps distinct objects distinct |
| Wallets.KeptIndices | Practice/Week_01/Manage_CryptoWallet/CryptoWallet.py:239 | the positions whose object does not carry the ID: valid, strictly increasing, and every such position is listed |
| Wallets.KeptAtIndices | Practice/Week_01/Manage_CryptoWallet/CryptoWallet.py:239 | the kept objects are exactly the objects at those positions, in order (the comprehension keeps order) |
| Wallets.KeptRecords | Practice/Week_01/Manage_CryptoWallet/CryptoWallet.py:239 | the kept objects carry exactly the records `WithoutId` keeps |
| Wallets.InsertObject | Practice/Week_01/Manage_CryptoWallet/CryptoWallet.py:57 | inserting an object adds exactly that object and keeps objects distinct |
| Wallets.InsertObjectRecords | Practice/Week_01/Manage_CryptoWallet/CryptoWallet.py:57 | inserting an object inserts its record at the place `InsertByAmount` chooses |
| Wallets.SortedByAmount | Practice/Week_01/Manage_CryptoWallet/CryptoWallet.py:57 | sorting the objects permutes them |
| Wallets.SortedDistinct | Practice/Week_01/Manage_CryptoWallet/CryptoWallet.py:57 | sorting keeps the objects distinct |
| Wallets.SortedRecords | Practice/Week_01/Manage_CryptoWallet/CryptoWallet.py:57 | the sorted objects carry the sorted records |
| WalletMenu.Endpoints | Practice/Week_01/Manage_CryptoWallet/Manage_CryptoWallet.py:135-149 | the four transaction types map to their fixed sender and recipient ("system" or "market" and the wallet); any other type gives two empty ends |
| WalletMenu.OwnTransfer | Practice/Week_01/Manage_CryptoWallet/Manage_CryptoWallet.py:135-149 | the wallet is both ends of option 2's transaction exactly when its ID equals the fixed end of the type ("system" or "market"), or is empty for an unknown type |
| WalletMenu.NewWalletBalance | Practice/Week_01/Manage_CryptoWallet/Manage_CryptoWallet.py:135-154 | for any wallet ID, type, value and fee: the balance `calculateTotalBalance` would compute for option 2's new wallet is value minus fee when the wallet is both ends (`OwnTransfer`) or the type is a deposit or purchase, minus (value plus fee) for a withdrawal or sale, 0 otherwise; received minus sent is 0 for a self-transfer, +value, -value or 0 otherwise |
| WalletMenu.EditAllCounts | Practice/Week_01/Manage_CryptoWallet/Manage_CryptoWallet.py:177-178 | option 5 keeps the number of wallets and reads no more answers than there are |
| WalletMenu.EditAllFails | Practice/Week_01/Manage_CryptoWallet/Manage_CryptoWallet.py:176-178 | option 5 stops with an exception exactly when some wallet holding the ID finds its two answers missing or not numbers |
| WalletMenu.EditAllAt | Practice/Week_01/Manage_CryptoWallet/Manage_CryptoWallet.py:177-178 | when option 5 goes through, each wallet is edited with its own pair of answers and the wallets without the ID are unchanged |
| WalletMenu.EditAllAbsent | Practice/Week_01/Manage_CryptoWallet/Manage_CryptoWallet.py:177-178 | with the ID held by no wallet, option 5 reads no answer and changes nothing |
| WalletMenu.EditAllPrefixFails | Practice/Week_01/Manage_CryptoWallet/Manage_CryptoWallet.py:177-178 | a failure among the first wallets is a failure of the whole option |
| WalletMenu.EditAllNext | Practice/Week_01/Manage_CryptoWallet/Manage_CryptoWallet.py:177-178 | one more wallet through option 5: untouched without the ID, edited with the next two answers, or failing when they are not both numbers |
| WalletMenu.RemoveAll | Practice/Week_01/Manage_CryptoWallet/Manage_CryptoWallet.py:181-183 | option 6 keeps the number and order of wallets and their fields, each history filtered by `WithoutId` |
| WalletMenu.RemoveAllIdempotent | Practice/Week_01/Manage_CryptoWallet/Manage_CryptoWallet.py:181-183 | repeating option 6 with the same ID changes nothing more |
| WalletMenu.SortAll | Practice/Week_01/Manage_CryptoWallet/Manage_CryptoWallet.py:216-218 | option 14 keeps the wallets; with "value" each history is sorted, with any other key nothing changes |
| WalletMenu.SortAllKeepsSums | Practice/Week_01/Manage_CryptoWallet/Manage_CryptoWallet.py:216-218 | option 14 changes no wallet's aggregate |
| WalletMenu.Rebound | Practice/Week_01/Manage_CryptoWallet/Manage_CryptoWallet.py:157-235 | after options 3 to 19 the records are unchanged, `w` is rebound once the list is non-empty and `tx` too for option 13 |
| WalletMenu.TransitionWallets | Practice/Week_01/Manage_CryptoWallet/Manage_CryptoWallet.py:99-244 | only 0 exits; option 1 appends the file's records (none for a missing file), option 2 exactly one wallet at the end; every other pass keeps the number of wallets, and apart from 5, 6 and 14 their records; no pass reads more answers than there are; a choice outside 1-19 changes nothing and reads nothing |
| WalletMenu.AddRebuilt | Practice/Week_01/Manage_CryptoWallet/Manage_CryptoWallet.py:115-119 | the transaction rebuilt from a record is a new object carrying all six fields of the record, appended to the wallet's history; the wallet's other fields are unchanged |
| WalletMenu.BuildWallet | Practice/Week_01/Manage_CryptoWallet/Manage_CryptoWallet.py:112-119 | the rebuilt wallet is new, its `to_dict` is the record it came from (round trip), and its transaction objects are new and distinct |
| WalletMenu.NewWallet | Practice/Week_01/Manage_CryptoWallet/Manage_CryptoWallet.py:129-154 | option 2's wallet is new and holds one new transaction with the entered ID, type, value and fee (the fee replacing the 1% default) |
| WalletMenu.DisjointReplace | Practice/Week_01/Manage_CryptoWallet/Manage_CryptoWallet.py:177-183 | a history replaced by distinct objects drawn from it keeps no object shared between wallets |
| WalletMenu.DisjointShrink | Practice/Week_01/Manage_CryptoWallet/CryptoWallet.py:239 | a history replaced by some of its own objects keeps the histories disjoint |
| WalletMenu.DisjointPermute | Practice/Week_01/Manage_CryptoWallet/CryptoWallet.py:57 | a history replaced by a reordering of itself keeps the histories disjoint |
| WalletMenu.DisjointAppend | Practice/Week_01/Manage_CryptoWallet/Manage_CryptoWallet.py:120 | a wallet whose objects no listed wallet holds can join the list without sharing |
| WalletMenu.WalletApp.constructor | Practice/Week_01/Manage_CryptoWallet/Manage_CryptoWallet.py:98 | the list starts empty and no module name is rebound |
| WalletMenu.WalletApp.Load | Practice/Week_01/Manage_CryptoWallet/Manage_CryptoWallet.py:105-123 | a missing file changes nothing; a file with a wallet to build raises when `w` (or, for a wallet with transactions, `tx`) was rebound; otherwise the wallets now serialise to the old records followed by the file's records in order (round trip with `to_dict`) |
| WalletMenu.WalletApp.LoadOne | Practice/Week_01/Manage_CryptoWallet/Manage_CryptoWallet.py:111-120 | one wallet of the file is rebuilt and appended: the records grow by exactly that record, the earlier wallets are untouched |
| WalletMenu.WalletApp.AddNew | Practice/Week_01/Manage_CryptoWallet/Manage_CryptoWallet.py:124-156 | with seven acceptable answers exactly one wallet is appended, built from them; a missing or non-numeric answer or a rebound module name raises |
| WalletMenu.WalletApp.Edit | Practice/Week_01/Manage_CryptoWallet/Manage_CryptoWallet.py:174-178 | option 5 raises without an ID and otherwise exactly when `EditAll` fails; on success the wallets are `EditAll`'s and the answers it used are consumed |
| WalletMenu.WalletApp.EditWith | Practice/Week_01/Manage_CryptoWallet/Manage_CryptoWallet.py:177-178 | the loop over the wallets performs `EditAll` and keeps objects unshared |
| WalletMenu.WalletApp.EditNext | Practice/Week_01/Manage_CryptoWallet/Manage_CryptoWallet.py:177-178 | one pass of the loop extends the prefix on which `EditAll` holds, or proves the whole option fails |
| WalletMenu.WalletApp.Remove | Practice/Week_01/Manage_CryptoWallet/Manage_CryptoWallet.py:179-183 | option 6 raises only without an answer; otherwise the wallets become `RemoveAll` of the old ones |
| WalletMenu.WalletApp.Sort | Practice/Week_01/Manage_CryptoWallet/Manage_CryptoWallet.py:214-219 | option 14 raises only without an answer; otherwise the wallets become `SortAll` of the old ones |
| WalletMenu.WalletApp.Rebind | Practice/Week_01/Manage_CryptoWallet/Manage_CryptoWallet.py:157-235 | the `for w in list_wallet` loops rebind `w` once the list is non-empty, and option 13 also rebinds `tx`; the list is unchanged |
| WalletMenu.WalletApp.AddParsed | Practice/Week_01/Manage_CryptoWallet/Manage_CryptoWallet.py:129-155 | exactly one wallet, the one the answers describe, is appended at the end |
| WalletMenu.WalletApp.Step | Practice/Week_01/Manage_CryptoWallet/Manage_CryptoWallet.py:99-104 | a missing or non-integer choice raises; choice 0 and only 0 ends the loop; for an integer choice the outcome, the new wallets and flags, and the answers left are those of `Transition`; any other choice outside 1-19 changes nothing |
| WalletMenu.WalletApp.Dispatch | Practice/Week_01/Manage_CryptoWallet/Manage_CryptoWallet.py:102-244 | choice 0 and only 0 exits; for every choice the outcome, and on a pass that goes through the new records, the rebound flags and the answers left, are those `Transition` gives for the old state |
| WalletMenu.WalletApp.EditPass | Practice/Week_01/Manage_CryptoWallet/Manage_CryptoWallet.py:174-178 | option 5 as a pass: the outcome, state and answers left of `Transition` for choice 5 |
| WalletMenu.WalletApp.RemovePass | Practice/Week_01/Manage_CryptoWallet/Manage_CryptoWallet.py:179-183 | option 6 as a pass: those of `Transition` for choice 6 |
| WalletMenu.WalletApp.SortPass | Practice/Week_01/Manage_CryptoWallet/Manage_CryptoWallet.py:214-219 | option 14 as a pass: those of `Transition` for choice 14 |
| WalletMenu.WalletApp.Append | Practice/Week_01/Manage_CryptoWallet/Manage_CryptoWallet.py:120 | `list_wallet.append` adds the wallet at the end and keeps objects unshared |
| WalletMenu.WalletApp.EditOne | Practice/Week_01/Manage_CryptoWallet/Manage_CryptoWallet.py:178 | one wallet's `editTransaction` changes only that wallet, as `EditFirst` says |
| WalletMenu.WalletApp.RemoveOne | Practice/Week_01/Manage_CryptoWallet/Manage_CryptoWallet.py:183 | one wallet's `removeTransaction` changes only that wallet, as `WithoutId` says |
| WalletMenu.WalletApp.SortOne | Practice/Week_01/Manage_CryptoWallet/Manage_CryptoWallet.py:218 | one wallet's `sortTransactions` changes only that wallet, as `SortByAmount` says |
| Employees.Employee.constructor | Practice/Week_01/Employee/LabEmployee.py:91 | code, name, age and salary are stored as given |
| Employees.FieldsOfJoin | Practice/Week_01/Employee/LabEmployee.py:85-86 | a line made of comma-free, newline-free fields joined by commas splits back into those fields |
| Employees.StripNoNewline | Practice/Week_01/Employee/LabEmployee.py:85 | stripping newlines from a line without any leaves it unchanged |
| Employees.Loaded | Practice/Week_01/Employee/LabEmployee.py:84-92 | the file loads exactly when every line parses, giving one employee per line in line order |
| Employees.LineOfAnswers | Practice/Week_01/Employee/LabEmployee.py:95-98 | option 2's four answers, written as one line, load as the same employee option 1 would read (fields past the fourth ignored) |
| Employees.SalarySumAppend | Practice/Week_01/Employee/LabEmployee.py:206-210 | the salary total is additive over concatenation |
| Employees.SalarySumUpdate | Practice/Week_01/Employee/LabEmployee.py:182 | changing one salary moves the total by the difference |
| Employees.MaxAgeOf | Practice/Week_01/Employee/LabEmployee.py:237-248 | the largest age of a non-empty list is at least every age and is some employee's age |
| Employees.AdjustAllCounts | Practice/Week_01/Employee/LabEmployee.py:178-195 | options 7 and 8 keep the list length and use one answer per employee with the code |
| Employees.AdjustAllFails | Practice/Week_01/Employee/LabEmployee.py:181 | options 7 and 8 raise exactly when some employee with the code finds its answer missing or not an integer |
| Employees.AdjustAllAt | Practice/Week_01/Employee/LabEmployee.py:178-195 | each employee with the code has its salary raised (7) or lowered (8) by its own answer, with no bound; everyone else is unchanged |
| Employees.AdjustAllPrefixFails | Practice/Week_01/Employee/LabEmployee.py:178-183 | a failure among the first employees is a failure of the whole option |
| Employees.AdjustAllNext | Practice/Week_01/Employee/LabEmployee.py:178-183 | one more employee through the loop: unchanged without the code, adjusted by the next answer, or failing |
| Employees.AdjustAbsent | Practice/Week_01/Employee/LabEmployee.py:178-195 | with nobody holding the code, options 7 and 8 read nothing and change nothing |
| Employees.AdjustSalarySum | Practice/Week_01/Employee/LabEmployee.py:178-195 | with the code held by one employee and a whole number entered, the salary total rises (7) or falls (8) by exactly that amount |
| Employees.DeleteWalkFrom | Practice/Week_01/Employee/LabEmployee.py:163-169 | the index walk that removes under the loop agrees with `DeleteFrom` from any point |
| Employees.DeleteWalkIsDeleteFrom | Practice/Week_01/Employee/LabEmployee.py:163-169 | run from the start, the loop as written is `DeleteFrom` |
| Employees.DeleteFromCounts | Practice/Week_01/Employee/LabEmployee.py:163-169 | option 6 never reads more answers than there are and never lengthens the list |
| Employees.DeleteOnlyMatches | Practice/Week_01/Employee/LabEmployee.py:163-169 | option 6 only removes employees with the code; everyone else stays as often as before |
| Employees.DeleteAbsent | Practice/Week_01/Employee/LabEmployee.py:163-169 | with nobody holding the code, option 6 reads nothing and removes nothing |
| Employees.DeleteUnique | Practice/Week_01/Employee/LabEmployee.py:163-169 | with the code held by one employee, one answer is read and the employee is removed exactly on "Y"; the others keep their order |
| Employees.DeleteUniqueFirst | Practice/Week_01/Employee/LabEmployee.py:163-169 | the same when that employee is the first one |
| Employees.DeleteSkipsNext | Practice/Week_01/Employee/LabEmployee.py:163-169 | the employee right after a removed one is not examined: of two adjacent matches, confirming the first leaves the second without a question |
| EmployeeMenu.EmployeeApp.constructor | Practice/Week_01/Employee/LabEmployee.py:72 | the list starts empty and no accumulator name is bound |
| EmployeeMenu.EmployeeApp.Append | Practice/Week_01/Employee/LabEmployee.py:92 | one new employee object is added at the end, the rest unchanged |
| EmployeeMenu.EmployeeApp.Load | Practice/Week_01/Employee/LabEmployee.py:82-93 | option 1 raises when the file is missing or some line does not parse; otherwise the file's employees are appended in order |
| EmployeeMenu.EmployeeApp.LoadParsed | Practice/Week_01/Employee/LabEmployee.py:84-92 | the loop appends every parsed line in order, or raises exactly when one does not parse |
| EmployeeMenu.EmployeeApp.Add | Practice/Week_01/Employee/LabEmployee.py:94-100 | option 2 raises exactly when the answers do not give code, name, integer age and number salary; otherwise exactly one employee is appended |
| EmployeeMenu.EmployeeApp.Delete | Practice/Week_01/Employee/LabEmployee.py:157-171 | option 6 raises without a code or when an answer runs out; otherwise the list becomes `DeleteFrom` of the old one and the used answers are consumed |
| EmployeeMenu.EmployeeApp.DeleteWith | Practice/Week_01/Employee/LabEmployee.py:162-169 | the loop with `remove` inside performs `DeleteFrom` |
| EmployeeMenu.EmployeeApp.RemoveAt | Practice/Week_01/Employee/LabEmployee.py:169 | `dsNhanVien.remove(item)` removes exactly the object at its position |
| EmployeeMenu.EmployeeApp.Adjust | Practice/Week_01/Employee/LabEmployee.py:172-195 | options 7 and 8 raise without a code or exactly when `AdjustAll` fails; otherwise the list becomes `AdjustAll` of the old one |
| EmployeeMenu.EmployeeApp.AdjustWith | Practice/Week_01/Employee/LabEmployee.py:177-195 | the loop writing `item.salary` performs `AdjustAll` |
| EmployeeMenu.EmployeeApp.AdjustNext | Practice/Week_01/Employee/LabEmployee.py:178-183 | one pass of the loop extends the prefix on which `AdjustAll` holds, or proves the option fails |
| EmployeeMenu.EmployeeApp.Count | Practice/Week_01/Employee/LabEmployee.py:196-205 | `tongsnv` ends equal to the list length; the list is unchanged |
| EmployeeMenu.EmployeeApp.SumSalary | Practice/Week_01/Employee/LabEmployee.py:206-210 | `sumSalary` ends equal to the sum of the salaries; the list is unchanged |
| EmployeeMenu.EmployeeApp.AverageSalary | Practice/Week_01/Employee/LabEmployee.py:211-223 | on a non-empty list `luongtb` is total salary over count; on an empty list the name keeps its old value and the print raises when it was never bound |
| EmployeeMenu.EmployeeApp.AverageAge | Practice/Week_01/Employee/LabEmployee.py:224-236 | on a non-empty list `tuoitb` is total age over count; on an empty list the print raises when it was never bound |
| EmployeeMenu.EmployeeApp.MaxAge | Practice/Week_01/Employee/LabEmployee.py:237-248 | on a non-empty list `tuoimax` is some employee's age and at least every age, i.e. `MaxAgeOf` of the list; on an empty list the print raises when it was never bound |
| EmployeeMenu.EmployeeApp.Dispatch | Practice/Week_01/Employee/LabEmployee.py:82-330 | for every choice from 1 to 19 the outcome, and on a pass that goes through the new list, globals and answers left, are those `Transition` gives for the old state; options 3-5 and 9-19 leave the list unchanged, 1, 2 and 6-8 the accumulators; only 1, 2, 4-8 and 11-13 can raise; none ends the loop |
| EmployeeMenu.EmployeeApp.Show | Practice/Week_01/Employee/LabEmployee.py:101-320 | for a display-only option, the outcome, globals and answers left are those of `Transition`: 3 and 15-19 change nothing; 4 and 5 read a code; 9 and 14 bind the count, 10 the salary total; 11-13 bind their average or maximum, or raise on an empty list whose name was never bound |
| EmployeeMenu.EmployeeApp.Step | Practice/Week_01/Employee/LabEmployee.py:73-80 | a missing or non-integer choice is caught and the loop continues unchanged; an integer outside 1-19, and only such a choice, ends the loop; for an integer choice the outcome, new state and answers left are those of `Transition` |
| EmployeeMenu.TransitionRoster | Practice/Week_01/Employee/LabEmployee.py:73-330 | only a choice outside 1-19 ends the loop; display options keep the list and the others the globals; only 1, 2, 4-8 and 11-13 can raise; 1 and 2 only append (2 exactly one employee), 6 never lengthens the list, 7 and 8 keep its length; no pass reads more answers than there are |
| EmployeeMenu.EmployeeApp.LoadPass | Practice/Week_01/Employee/LabEmployee.py:82-93 | option 1 as a pass: the outcome, state and answers left of `Transition` for choice 1, globals unchanged |
| EmployeeMenu.EmployeeApp.AddPass | Practice/Week_01/Employee/LabEmployee.py:94-100 | option 2 as a pass: those of `Transition` for choice 2 |
| EmployeeMenu.EmployeeApp.DeletePass | Practice/Week_01/Employee/LabEmployee.py:157-171 | option 6 as a pass: those of `Transition` for choice 6 |
| EmployeeMenu.EmployeeApp.AdjustPass | Practice/Week_01/Employee/LabEmployee.py:172-195 | options 7 and 8 as a pass: those of `Transition` for the choice |
| CourseScraper.SafeText | crawl_data/lab4_project/lab4_project/spiders/selenium_scraper_it_courses.py:70-74 | whatever the element yields, the text returned has no leading or trailing character of `str.isspace` (empty when reading raises) |
| CourseScraper.SafeTextOf | crawl_data/lab4_project/lab4_project/spiders/selenium_scraper_it_courses.py:70-74 | a text without surrounding whitespace comes back as it is, and the result is empty exactly when the text is all whitespace |
| CourseScraper.SearchUrl | crawl_data/lab4_project/lab4_project/spiders/selenium_scraper_it_courses.py:92 | the URL is the site's fixed prefix followed by the query with no space left in it |
| CourseScraper.SearchUrlQuery | crawl_data/lab4_project/lab4_project/spiders/selenium_scraper_it_courses.py:92 | the query is recovered from the URL when it holds no '%', and a query without spaces is used as it is |
| CourseScraper.ScrollToLoad | crawl_data/lab4_project/lab4_project/spiders/selenium_scraper_it_courses.py:77-85 | scrolls at most `max_scrolls` times (once at least when positive) and stops at the first scroll that leaves the height unchanged |
| CourseScraper.ScrollSite | crawl_data/lab4_project/lab4_project/spiders/selenium_scraper_it_courses.py:101 | each extractor (this line and lines 167, 232 and 295) scrolls at least once and at most its budget (8 for Edumall, 10 for the others), stopping early only on an unchanged height |
| CourseScraper.LearningModeRules | crawl_data/lab4_project/lab4_project/spiders/selenium_scraper_it_courses.py:204-267 | the mode is always "Self-paced" or "Unknown"; for Coursera it is "Self-paced" iff the time text or the outcomes mention Self-paced or Flexible, for edX iff they mention Self or Paced, ignoring case |
| CourseScraper.InLinks | crawl_data/lab4_project/lab4_project/spiders/selenium_scraper_it_courses.py:111-113 | `seen` holds exactly the links of the accepted courses |
| CourseScraper.ExtractNext | crawl_data/lab4_project/lab4_project/spiders/selenium_scraper_it_courses.py:106-149 | one more anchor: skipped at the limit or when its link is empty or seen or its title empty; otherwise accepted, or the extractor raises |
| CourseScraper.Select | crawl_data/lab4_project/lab4_project/spiders/selenium_scraper_it_courses.py:106-149 | the extractor's loop computes `Extract` of its anchors |
| CourseScraper.ExtractSaturated | crawl_data/lab4_project/lab4_project/spiders/selenium_scraper_it_courses.py:107-108 | once the limit is reached the remaining anchors change nothing |
| CourseScraper.ExtractFailsFrom | crawl_data/lab4_project/lab4_project/spiders/selenium_scraper_it_courses.py:183 | once the extractor has raised, it stays raised |
| CourseScraper.ExtractBound | crawl_data/lab4_project/lab4_project/spiders/selenium_scraper_it_courses.py:107-108 | an extractor returns at most `limit` courses, and none when the limit is 0 or less |
| CourseScraper.ExtractFields | crawl_data/lab4_project/lab4_project/spiders/selenium_scraper_it_courses.py:109-113 | every returned course has a non-empty link and title, the site's platform name and the mode its own texts give |
| CourseScraper.ExtractDistinct | crawl_data/lab4_project/lab4_project/spiders/selenium_scraper_it_courses.py:111-113 | no two courses of one extractor share a link |
| CourseScraper.ExtractKeepsOrder | crawl_data/lab4_project/lab4_project/spiders/selenium_scraper_it_courses.py:106-149 | the accepted courses appear in the order of their anchors |
| CourseScraper.TitleLaterAccepted | crawl_data/lab4_project/lab4_project/spiders/selenium_scraper_it_courses.py:176-180 | a link first met with an empty title is accepted when it comes again with a title |
| CourseScraper.Scrape | crawl_data/lab4_project/lab4_project/spiders/selenium_scraper_it_courses.py:155-215 | the extractor opens the site's search URL; a page that fails to load gives nothing, otherwise the loop's result |
| CourseScraper.GatheredNext | crawl_data/lab4_project/lab4_project/spiders/selenium_scraper_it_courses.py:349-371 | each site's courses are appended after the earlier sites'; a raising site adds nothing |
| CourseScraper.Results | crawl_data/lab4_project/lab4_project/spiders/selenium_scraper_it_courses.py:349-371 | one result per site in the fixed order: nothing for a page that fails to load, otherwise that site's extractor on its own page |
| CourseScraper.FirstPerLinkNext | crawl_data/lab4_project/lab4_project/spiders/selenium_scraper_it_courses.py:376-379 | one more course through the dict loop: kept exactly when its link is new |
| CourseScraper.Dedup | crawl_data/lab4_project/lab4_project/spiders/selenium_scraper_it_courses.py:376-379 | the dict loop yields `FirstPerLink` of the gathered courses |
| CourseScraper.Run | crawl_data/lab4_project/lab4_project/spiders/selenium_scraper_it_courses.py:346-394 | the rows are the first course per link of the sites' results gathered in the order Edumall, Coursera, edX, DataCamp |
| CourseScraper.FirstPerLinkDistinct | crawl_data/lab4_project/lab4_project/spiders/selenium_scraper_it_courses.py:376-381 | no two rows share a link |
| CourseScraper.FirstPerLinkLinks | crawl_data/lab4_project/lab4_project/spiders/selenium_scraper_it_courses.py:376-379 | every gathered link has a row, and no row has a link that was not gathered |
| CourseScraper.FirstPerLinkFirst | crawl_data/lab4_project/lab4_project/spiders/selenium_scraper_it_courses.py:376-379 | each row is a gathered course that no earlier course with its link precedes (first seen wins) |
| CourseScraper.FirstPerLinkKeepsOrder | crawl_data/lab4_project/lab4_project/spiders/selenium_scraper_it_courses.py:376-381 | rows keep the order of first appearance |
| CourseScraper.ReindexComplete | crawl_data/lab4_project/lab4_project/spiders/selenium_scraper_it_courses.py:381-392 | every column of the fixed order is a field, so reindexing gives the seven fields in column order and adds no missing (NaN) column |
| JobSpider.StartRequests | crawl_data/lab4_project/lab4_project/spiders/selenium_jobs_vietnamworks_fptjobs.py:12-19 | one request per start URL, in order, parsed by `parse` and rendered with a 4-second wait and 3 scrolls |
| JobSpider.Hrefs | crawl_data/lab4_project/lab4_project/spiders/selenium_jobs_vietnamworks_fptjobs.py:23 | the anchors are the stripped non-empty values, each once |
| JobSpider.Unique | crawl_data/lab4_project/lab4_project/spiders/selenium_jobs_vietnamworks_fptjobs.py:23 | deduplicating keeps every value and no other, each once |
| JobSpider.Absolutes | crawl_data/lab4_project/lab4_project/spiders/selenium_jobs_vietnamworks_fptjobs.py:27 | each link is made absolute: kept when it starts with "http", resolved otherwise |
| JobSpider.VnwJobLinks | crawl_data/lab4_project/lab4_project/spiders/selenium_jobs_vietnamworks_fptjobs.py:27-28 | a VietnamWorks link is kept iff its absolute form contains "vietnamworks.com" and one of "/job/", "/viec-lam/", "/jobs/" |
| JobSpider.FptDetailPathShape | crawl_data/lab4_project/lab4_project/spiders/selenium_jobs_vietnamworks_fptjobs.py:47 | the FPTJobs fallback test is: rooted, a '-' followed only by one or more digits at the end, no "Error" |
| JobSpider.FptJobLinks | crawl_data/lab4_project/lab4_project/spiders/selenium_jobs_vietnamworks_fptjobs.py:42-47 | the overlay links whenever there are any; otherwise exactly the stripped anchors passing the detail-path test |
| JobSpider.NextRequests | crawl_data/lab4_project/lab4_project/spiders/selenium_jobs_vietnamworks_fptjobs.py:36-38 | at most one next-page request, to `parse` with no meta, and none exactly when both candidates are missing or empty |
| JobSpider.Follow | crawl_data/lab4_project/lab4_project/spiders/selenium_jobs_vietnamworks_fptjobs.py:33-34 | one rendered detail request per job link, in order |
| JobSpider.ParseListingRequests | crawl_data/lab4_project/lab4_project/spiders/selenium_jobs_vietnamworks_fptjobs.py:21-55 | `parse` yields only the re-render request exactly when it finds no job link; otherwise one detail request per link then at most one next-page request |
| JobSpider.RenderedJobLinks | crawl_data/lab4_project/lab4_project/spiders/selenium_jobs_vietnamworks_fptjobs.py:59-70 | a rendered page keeps "/job/" links on VietnamWorks and "/viec-lam/" links without "Error" on FPTJobs |
| JobSpider.RenderedAtMostOnce | crawl_data/lab4_project/lab4_project/spiders/selenium_jobs_vietnamworks_fptjobs.py:29-75 | `parse` yields at most one re-render request and `parse_listing_selenium` none |
| JobSpider.Kept | crawl_data/lab4_project/lab4_project/spiders/selenium_jobs_vietnamworks_fptjobs.py:82 | the fragments kept are exactly the non-blank ones, stripped |
| JobSpider.KeptEmpty | crawl_data/lab4_project/lab4_project/spiders/selenium_jobs_vietnamworks_fptjobs.py:82 | no fragment survives exactly when every fragment is blank |
| JobSpider.JoinKeptStripped | crawl_data/lab4_project/lab4_project/spiders/selenium_jobs_vietnamworks_fptjobs.py:82-86 | the joined location or description is itself stripped |
| JobSpider.JoinKeptEmpty | crawl_data/lab4_project/lab4_project/spiders/selenium_jobs_vietnamworks_fptjobs.py:82-86 | the joined text is empty exactly when every fragment is blank |
| JobSpider.Item | crawl_data/lab4_project/lab4_project/spiders/selenium_jobs_vietnamworks_fptjobs.py:88-97 | the item has exactly the eight keys, each holding its field |
| JobSpider.TitleFallsBack | crawl_data/lab4_project/lab4_project/spiders/selenium_jobs_vietnamworks_fptjobs.py:79 | the title falls back to the first heading exactly when the h1 text is blank |
| JobSpider.ParseVnwPage | crawl_data/lab4_project/lab4_project/spiders/selenium_jobs_vietnamworks_fptjobs.py:77-97 | one item, the one `Item` builds from `VnwJob`: the eight keys, site "Vietnamworks", the page URL, and every text field stripped |
| JobSpider.ParseFptPage | crawl_data/lab4_project/lab4_project/spiders/selenium_jobs_vietnamworks_fptjobs.py:99-116 | one item, the one `Item` builds from `FptJob`: the eight keys, site "FPTJobs", the page URL, and every text field stripped |
| JobSpider.VnwCompanyEmpty | crawl_data/lab4_project/lab4_project/spiders/selenium_jobs_vietnamworks_fptjobs.py:81 | the VietnamWorks company falls back only on an empty raw value, so a blank employer name yields an empty company |
| JobSpider.FptCompanyEmpty | crawl_data/lab4_project/lab4_project/spiders/selenium_jobs_vietnamworks_fptjobs.py:101 | the FPTJobs company is empty only when both candidates are blank |
| JobSpider.DescriptionSource | crawl_data/lab4_project/lab4_project/spiders/selenium_jobs_vietnamworks_fptjobs.py:86 | whenever the description selector finds texts they are used, even when all are blank |
| Text.StripChars | Practice/Week_01/Employee/LabEmployee.py:85 | `strip` leaves neither end in the stripped set |
| Text.StripInfix | Practice/Week_01/Employee/LabEmployee.py:85 | what `strip` keeps is an infix between a prefix and a suffix made only of stripped characters |
| Text.StripEmptyIffAllSpace | crawl_data/lab4_project/lab4_project/spiders/selenium_jobs_vietnamworks_fptjobs.py:23 | a stripped value is empty exactly when the value is all whitespace |
| Text.StripKeepsStripped | crawl_data/lab4_project/lab4_project/spiders/selenium_jobs_vietnamworks_fptjobs.py:82 | stripping a value with no surrounding whitespace leaves it unchanged, so stripping twice is stripping once |
| Text.Split | Practice/Week_01/Employee/LabEmployee.py:86 | `split` gives at least one piece and no piece holds the separator |
| Text.JoinSplit | Practice/Week_01/Employee/LabEmployee.py:86 | joining the pieces of `split` with the separator gives the string back |
| Text.SplitJoin | Practice/Week_01/Employee/LabEmployee.py:86 | splitting separator-free pieces joined by the separator gives the pieces back |
| Text.LastPiece | crawl_data/lab4_project/lab4_project/spiders/selenium_jobs_vietnamworks_fptjobs.py:47 | the last piece of `split('-')` is the suffix after the last '-' |
| Text.EncodeSpaces | crawl_data/lab4_project/lab4_project/spiders/selenium_scraper_it_courses.py:92 | `replace(' ', '%20')` leaves no space |
| Text.DecodeEncodeSpaces | crawl_data/lab4_project/lab4_project/spiders/selenium_scraper_it_courses.py:92 | for a query without '%', replacing spaces loses nothing |
| Text.ContainsIgnoreCaseJoined | crawl_data/lab4_project/lab4_project/spiders/selenium_scraper_it_courses.py:204 | a space-free keyword matches `time_info + " " + outcomes` exactly when it matches one of the two |
| Text.ParseInt | Practice/Week_01/Employee/LabEmployee.py:77 | a number `int()` accepts has at least one digit once stripped (its value is given by `ParseIntValue`) |
| Text.DigitsOf | Practice/Week_01/Employee/LabEmployee.py:77 | the decimal numeral of a natural number is a run of digits that denotes it |
| Text.ParseIntValue | Practice/Week_01/Employee/LabEmployee.py:77 | `int(s)` is `Some(v)` exactly when `s` stripped is a run of digits denoting v, with an optional "+", or "-" and digits denoting -v |
| Text.ParseIntDecimal | Practice/Week_01/Employee/LabEmployee.py:77 | `int(str(n)) == n` for every integer n, also with whitespace around the numeral |
| Text.StripPadded | Practice/Week_01/Employee/LabEmployee.py:77 | `strip` removes exactly the surrounding whitespace from a stripped string padded with whitespace |
| Text.ParseFloatInteger | Practice/Week_01/Manage_CryptoWallet/Manage_CryptoWallet.py:128-133 | `float(str(n)) == n` for every integer n, also with whitespace around the numeral |
| Text.ParseFloatDecimal | Practice/Week_01/Manage_CryptoWallet/Manage_CryptoWallet.py:128-133 | `float()` of a literal with a point is the digits before it plus the digits after it scaled down by their count, and the negation of that after a minus |

## Left out

- Printing, `display`, and all plots: `CryptoWallet.plot*` and employee options 15 to 19 change no state the model tracks. The only effect modelled for the wallet options that merely display is the rebinding of `w` and `tx`.
- `avgMonthlyTransaction` (wallet option 12): it rounds a float with `round(..., 2)`, and real arithmetic does not model rounding.
- Wallet option 19 and all file, JSON and CSV writing: option 1 is modelled from the wallet records, so the round trip holds at record level (`BuildWallet`).
- Malformed JSON, missing keys and wrongly typed values in the wallet file: the file is given as well-formed records.
- Floating point: amounts, fees and salaries are exact `real`s, so the 1% fee and the averages have no rounding.
- Wallets.CryptoWallet.AddTransaction: the `isinstance` check and its `TypeError` cannot fail, because the parameter is typed as a transaction. `hasattr`/`getattr` defaults never apply either, since every transaction has all six fields.
- Wallets.CryptoWallet.EditTransaction: the fee total after an edit is proved on records (`EditFirstFee`, from `SumOfUpdate`), not as a postcondition of the method; the method's contract gives the new records, from which it follows.
- Wallets.CryptoWallet.FindMaxTransaction: returns the ID and amount of the maximal transaction, not the formatted text that line 53 builds from them; string formatting of numbers is not modelled.
- JobSpider.FptDetailPathShape: `str.isdigit` is taken over the ASCII digits; other Unicode digits are not modelled.
- Employee.py is not part of this model: the employee's fields (code, name, age, salary) are inferred from their uses, and `display`, `income` and the salary methods described in the header comment are not modelled.
- State after an exception: a branch that raises ends the program. The model states when that happens, not what was already appended or changed (option 1 of either menu may have appended part of its input).
- Text.ParseInt: accepts plain decimal integers with ASCII digits, an optional sign and surrounding whitespace; underscores and non-ASCII digits are not part of this model.
- Text.ParseFloat: accepts plain decimal literals with ASCII digits; exponents, underscores and `inf`/`nan` are not part of this model.
- CourseScraper.LearningMode: the regular expressions become case-insensitive substring tests with ASCII-only lowering.
- JobSpider.Hrefs: Python's set has no defined iteration order, so the model keeps first-occurrence order; the link sets are the same.
- JobSpider.VnwJobLinks: `response.urljoin` is the function parameter `resolve`, and `response.follow`'s own resolution of links is not modelled.
- Scrapy's scheduler, duplicate filter, `allowed_domains` offsite filtering and the middleware that renders pages with a browser (middlewares.py is not part of this model).
- Selenium: `make_driver`, waiting, `execute_script` and the CSS/XPath selectors are inputs. Page heights are the function `height`; a page that fails to load or read is `None`. Failures of `get_attribute` are not modelled.
- Practice/Week_01/Retangle/ChuNhat2.py and ChuNhat3.py: they rely on a `Rectangle` module that is not shown, and are not part of this model.
