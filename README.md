# mini-apps-bank: a verified model of the account and balance rules

The service keeps an `account` table (identity fields, role, balance,
account number) and a `transaction` table (the ledger). Its HTTP handlers
open accounts, report balances and apply deposits (`TopupSaldo`) and
withdrawals (`TarikSaldo`). Each mutation does the same steps in order:
look up the account row, validate the amount, compute the new balance,
write it back, and append one ledger row carrying a transaction code
`TRX-XXXXX-DDMMYY`.

This project models those rules in Dafny and proves what they guarantee.

- `digits.dfy` (module `Digits`) covers the `^\d+$` validator. It also covers
  the account number, which is the decimal text (`strconv.Itoa`) of a random
  draw in [0, 10^10). The parser `ParseDecimal` is its inverse.
- `transaction_code.dfy` (module `TransactionCodes`) has `generateRandomCode`
  as a loop that fills a 5-slot buffer. It also has `generateTransaction`'s
  assembly of the code, the `"020106"` date layout, and a parser that is
  proved to be the exact inverse of the assembly.
- `bank.dfy` (module `Bank`) has the rows, the request, the error values, and
  one function for each of the handlers CreateAcoount, GetSaldo, TopupSaldo
  and TarikSaldo. `CreateAccount`, `Deposit` and `Withdraw` map the store's
  state before a request to the state after it plus the handler's outcome;
  `GetBalance` maps the state to the outcome. The account listing
  (GetAccount) has no function here; `BankStore.ListAccounts` specifies it.
  The module also holds the invariants the handlers keep and the properties
  that span several requests.
- `bank_service.dfy` (module `BankService`) has the store as a class. Its
  fields are a mutable account map, a ledger sequence and the next account
  id. The handlers are methods that perform the read, validate, write-balance
  and append-ledger steps. The mutating methods and the balance lookup are
  proved equal to their `Bank` functions. The account listing is specified
  directly: every account once, without its password hash.

The code is modelled as written, quirks included:

- A withdrawal refuses only an amount above the balance. From a balance of
  zero or more, zero and negative amounts are accepted, and a negative amount
  raises the balance.
- A deposit checks the account before the amount, so an unknown account fails
  first.
- Both directions write remark `"TABUNG"` and the unsigned request amount.
- Account creation stores the requested initial balance without a sign check.

Where the code's own names or the usual expectations of a bank differ from
what the code does, the model follows the code:

- The generator is named `Generate10DigitNumberRek`, and the comment at
  main.go:124 reads the bound as 10^10 - 1. The number is printed with
  `strconv.Itoa` and not zero-padded, so it has 1 to 10 digits
  (`ShortAccountNumber`).
- Balances are not guaranteed to stay non-negative. Deposits and withdrawals
  keep a non-negative balance non-negative (`MutationsKeepBalancesNonNegative`).
  Account creation keeps it exactly when the initial balance is non-negative
  (`CreateAccountBalanceSign`).
- A missing account and a failing query are both answered with a 500 in the
  code. The model gives the missing account its own `AccountNotFound` error
  value and models no store failures (see below).
- The balance UPDATE of a deposit or withdrawal (main.go:295, :365) sets only
  the balance. The row's `update_at` keeps its creation time, and the model
  keeps `updatedAt` unchanged in the same way (`Bank.Deposit`,
  `Bank.Withdraw`).

Randomness, the clock and password hashing are parameters of the operations:

- the draw for the account number, in [0, 10^10);
- the five draws for the code, each in [0, 36);
- the calendar date;
- an opaque timestamp `now`;
- a hash function that returns `None` when hashing fails.

## Model

| member | source | states |
|---|---|---|
| Digits.ValidateNumberString | main.go:116-120 | true exactly when the string is non-empty and every character is an ASCII digit '0'..'9' |
| Digits.DecimalString | main.go:150 | Itoa's text of a non-negative number is a non-empty digit string with no superfluous leading zero |
| Digits.ParseDecimalString | main.go:150 | reading Itoa's text back as a decimal gives the original number |
| Digits.DecimalStringOfParse | main.go:150 | every canonical digit string is Itoa's text of the value it denotes, so Itoa and the parser are mutual inverses |
| Digits.DecimalStringLength | main.go:124 | a number below 10^k prints with at most k digits |
| Digits.AccountNumber | main.go:122-126 | the account number for a draw in [0, 10^10) passes ValidateNumberString, has 1 to 10 characters and reads back as the draw |
| Digits.AccountNumberInjective | main.go:148-150 | two draws give the same account number only if they are equal |
| Digits.ShortAccountNumber | main.go:148-150 | a draw below 10^9 gives a number of at most 9 digits, because nothing pads it to 10 |
| TransactionCodes.GenerateRandomCode | main.go:236-244 | the loop fills all 5 slots, each with the Charset character its draw selects; the result is 5 characters of A-Z0-9 |
| TransactionCodes.YearOfCentury | main.go:254 | the "06" layout element is a value below 100 |
| TransactionCodes.YearOfCenturyLastDigits | main.go:254 | the "06" element prints the last two digits of the decimal text of the year's absolute value, with a leading '0' for a one-digit year; a year and its negation print alike |
| TransactionCodes.TwoDigits | main.go:254 | the "02" and "01" elements print a number below 100 as exactly two ASCII digits, zero-padded |
| TransactionCodes.TwoDigitsOfParse | main.go:254 | every two-digit text is the zero-padded form of the number it denotes |
| TransactionCodes.TransactionCodeShape | main.go:246-260 | a code has 16 characters: "TRX-", the 5 random characters, '-', then the zero-padded day, month and year of century; it parses back to those parts |
| TransactionCodes.PartsOf | main.go:251-254 | the "020106" layout splits a date into parts that are well formed: the random part plus a day, a month and a year of century, each below 100 |
| TransactionCodes.Assemble | main.go:257 | the Sprintf result has 16 characters: "TRX-" at 0-3, the random part at 4-8, '-' at 9, then the two-digit day, month and year at 10-11, 12-13 and 14-15 |
| TransactionCodes.TransactionCode | main.go:246-259 | the code for a random part and a date has 16 characters and parses back to that random part, the day, the month and the year of century |
| TransactionCodes.ParseAssemble | main.go:257 | parsing an assembled code gives back the random part, day, month and year it was built from |
| TransactionCodes.AssembleParse | main.go:257 | every string the parser accepts is exactly the code assembled from the parts it returns |
| TransactionCodes.GenerateTransaction | main.go:246-260 | the generated code is the assembly of the random part drawn and the date, and it is a well-formed code |
| Bank.ValidationIgnoresRoleAndBalance | main.go:141 | the required-field check (MissingField) looks only at password, name, email, nik and phone: changing the requested role, initial balance or number never changes the verdict, and a request with those five filled in is never refused by it |
| Bank.NewAccount | main.go:161-167 | the inserted row carries the given id, the hashed password, role USER, the request's name, email, nik, phone and initial balance, the generated number, and the given instant as both timestamps |
| Bank.CreateAccount | main.go:129-180 | refused with InvalidRequest, state unchanged, exactly when password, name, email or phone is empty or nik is 0; a hashing failure leaves the state unchanged; it succeeds exactly when no field is missing and hashing succeeds; on success it inserts one new account under the drawn number (1 to 10 digits, previously unused) with role USER, the requested balance, the hashed password, the request's identity fields and the next id; no other account and no ledger row changes |
| Bank.WithoutPasswordHash | main.go:219 | a row as the read queries return it: the password hash is empty because the SELECT omits that column, and every other column is the stored one |
| Bank.GetBalance | main.go:216-234 | succeeds exactly when an account has that number; returns that account's row with its balance and an empty password hash; otherwise AccountNotFound |
| Bank.Deposit | main.go:263-331 | an unknown account fails first, then an amount <= 0 fails, both with no change; otherwise the balance becomes old + amount and is returned, no other account or field changes, and exactly one ledger row (account id, code, amount, "success", number, "TABUNG") is appended |
| Bank.Withdraw | main.go:334-404 | an unknown account fails first, then an amount above the balance fails with InsufficientFunds, both with no change; otherwise the balance becomes old - amount, which is >= 0, no other account changes, and exactly one ledger row is appended |
| Bank.Receipt | main.go:304-313 | for the deposit here and the withdrawal at main.go:377-386: the ledger row has status "success", remark "TABUNG", the request amount unsigned, the account's id and number, the transaction code, and both timestamps equal to the given instant |
| Bank.CreateAccountKeepsConsistent | main.go:161-167 | creation keeps every account under its own number with a unique issued id, and keeps every ledger row pointing at an existing account |
| Bank.DepositKeepsConsistent | main.go:304-319 | a deposit keeps the store consistent; its ledger row names the target account by id and number |
| Bank.WithdrawKeepsConsistent | main.go:377-392 | a withdrawal keeps the store consistent; its ledger row names the target account by id and number |
| Bank.MutationsKeepBalancesNonNegative | main.go:284-291 | for the deposit here and the withdrawal at main.go:355-362: if every balance is >= 0 before a deposit or withdrawal, every balance is >= 0 after it |
| Bank.CreateAccountBalanceSign | main.go:166-167 | after creation every balance is still >= 0 exactly when the request was refused or its initial balance is >= 0 |
| Bank.LookupAfterCreate | main.go:218-219 | a balance lookup right after a successful creation finds the new account with the initial balance and role USER |
| Bank.RepeatedDeposits | main.go:291-319 | after N deposits of positive amounts, each with its own transaction code and timestamp, the balance is the initial balance plus their sum; the ledger gains exactly N rows, the i-th holding the i-th amount, code and timestamp; earlier rows and other accounts are unchanged |
| Bank.LedgerOmitsDirection | main.go:377-386 | a deposit and a withdrawal of the same amount append identical ledger rows but leave balances that differ by twice the amount |
| Bank.WithdrawNonPositiveAccepted | main.go:355-362 | from a balance of zero or more, a withdrawal of zero or a negative amount is accepted, does not lower the balance (a negative amount raises it), and writes a ledger row; see Bank.WithdrawFromNegativeBalance for a negative balance |
| Bank.WithdrawFromNegativeBalance | main.go:355-362 | from a negative balance, which creation allows, a withdrawal of zero or more is refused with InsufficientFunds and nothing changes |
| BankService.BankStore.CreateAccount | main.go:129-180 | the store's new contents and the outcome are those of Bank.CreateAccount; the store stays consistent |
| BankService.BankStore.ListAccounts | main.go:183-213 | returns every account exactly once, in some order, each without its password hash |
| BankService.BankStore.GetBalance | main.go:216-234 | returns what Bank.GetBalance gives for the current contents |
| BankService.BankStore.Deposit | main.go:263-331 | the store's new contents and the outcome are those of Bank.Deposit with the generated code; the store stays consistent |
| BankService.BankStore.Withdraw | main.go:334-404 | the store's new contents and the outcome are those of Bank.Withdraw with the generated code; the store stays consistent |
| BankService.Scenario | main.go:129-404 | on a new store, through the handlers CreateAcoount, TopupSaldo, TarikSaldo and GetSaldo: create with balance 0, deposit 500, withdraw 200, then withdraw 1000. The last is refused with InsufficientFunds, the balance is 300, and the ledger holds two "TABUNG" rows for 500 and 200 on that account |

## Left out

- HTTP routing, request binding and its 400 on malformed JSON, JSON
  responses and status codes (main.go:93-114 and the handlers' returns).
  Outcomes are the `Outcome` datatype instead.
- Connecting to and closing the database (main.go:59-91), and the SQL text.
  The tables are an in-memory map and a sequence.
- Store failures. Every failed query or write answers 500 in the code. The
  in-memory store here never fails. That includes a failure between the
  balance UPDATE and the ledger INSERT, which would leave a balance change
  with no ledger row. The methods write the balance before the ledger, as the
  code does.
- Concurrent requests. The read-then-write of a balance is not locked, so two
  requests can lose an update. Each method here runs alone.
- Go's `int` is taken to be 64 bits. On a 32-bit build, `int(number)` at
  main.go:125 truncates a draw of 2^31 or more, and `strconv.Itoa` can then
  print a negative number. `Digits.AccountNumber` holds only for 64-bit `int`.
- float64 rounding of balances and amounts. Amounts are exact `real`s.
- bcrypt. It is an opaque parameter that may fail; its cryptographic
  properties are not modelled.
- math/rand and time.Now(). They are parameters. The code calls time.Now()
  separately for created_at and update_at; the model uses one instant for both.
- Duplicate account numbers. The code never checks uniqueness, so creation
  requires a drawn number that is not already in use.
- The ids the store assigns to transaction rows. Account ids come from a
  counter that starts at 1.
- The order in which GetAccount lists accounts. It is whatever the store
  returns, so ListAccounts promises every account once, in any order. A scan
  error is a store failure and is left out as above. The empty list that
  encodes as JSON null is left out too.
- The request logging at main.go:139. `log.Println` writes the whole bound
  request, plaintext password included, to the log. Logging is output and is
  not modelled, so the model does not capture that the password leaks there.
- The input-validation helper ValidateNumberString is modelled, but no handler
  in the code calls it, so no operation here calls it either.
