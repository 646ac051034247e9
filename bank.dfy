/** The business rules of the account and balance handlers, as functions from
    the store's state before a request to its state after it and the outcome
    the handler reports. The store is an account table keyed by account
    number and an append-only transaction table (the ledger). */
module Bank {
  import opened Wrappers
  import opened Digits

  /** A row of the account table. Timestamps are opaque instants. */
  datatype Account = Account(
    id: int,
    name: string,
    email: string,
    passwordHash: string,
    role: string,
    nik: int,
    phone: string,
    balance: real,
    accountNumber: string,
    createdAt: int,
    updatedAt: int)

  /** The JSON request body every POST handler binds. Deposit and withdrawal
      read only accountNumber and balance (the amount). */
  datatype AccountRequest = AccountRequest(
    name: string,
    email: string,
    password: string,
    nik: int,
    phone: string,
    role: string,
    balance: real,
    accountNumber: string)

  /** A row of the transaction table. */
  datatype Transaction = Transaction(
    accountId: int,
    code: string,
    totalAmount: real,
    status: string,
    accountNumberTo: string,
    remark: string,
    createdAt: int,
    updatedAt: int)

  datatype Error =
    | InvalidRequest     // a required field is missing (400)
    | HashFailed         // the password hash could not be computed (500)
    | AccountNotFound    // no row with that account number (reported as 500)
    | InvalidAmount      // deposit of an amount <= 0 (400)
    | InsufficientFunds  // withdrawal of more than the balance (400)

  datatype Outcome<+T> = Ok(value: T) | Err(error: Error)

  /** The store: accounts by account number, the ledger in insertion order,
      and the id the store assigns to the next account. */
  datatype State = State(accounts: map<string, Account>, ledger: seq<Transaction>, nextId: int)

  /** What a handler leaves behind: the new state and its outcome. */
  datatype Step<+T> = Step(state: State, outcome: Outcome<T>)

  const UserRole: string := "USER"
  const StatusSuccess: string := "success"
  /** The remark written for deposits and withdrawals alike. */
  const Remark: string := "TABUNG"

  const EmptyStore: State := State(map[], [], 1)

  /** Every account is stored under its own number with an id the store has
      issued, ids are unique, and every ledger row names an existing account
      by both its id and its number. */
  ghost predicate Consistent(s: State) {
    && s.nextId > 0
    && (forall no | no in s.accounts ::
          s.accounts[no].accountNumber == no && 0 < s.accounts[no].id < s.nextId)
    && (forall a, b | a in s.accounts && b in s.accounts && a != b ::
          s.accounts[a].id != s.accounts[b].id)
    && (forall i | 0 <= i < |s.ledger| ::
          s.ledger[i].accountNumberTo in s.accounts
          && s.accounts[s.ledger[i].accountNumberTo].id == s.ledger[i].accountId)
  }

  ghost predicate NonNegativeBalances(s: State) {
    forall no | no in s.accounts :: s.accounts[no].balance >= 0.0
  }

  // ---------------------------------------------------------------------
  // Account creation

  /** The required-field check of account creation. */
  predicate MissingField(req: AccountRequest) {
    req.password == "" || req.name == "" || req.email == "" || req.nik == 0 || req.phone == ""
  }

  /** Only the five identity fields are checked: the requested role, initial
      balance and number never cause a refusal, so a negative initial balance
      or an arbitrary role passes, and a request whose five fields are filled
      in is accepted. */
  lemma ValidationIgnoresRoleAndBalance(req: AccountRequest, role: string, balance: real, no: string)
    ensures MissingField(req.(role := role, balance := balance, accountNumber := no)) == MissingField(req)
    ensures req.password != "" && req.name != "" && req.email != "" && req.nik != 0 && req.phone != ""
      ==> !MissingField(req.(role := role, balance := balance, accountNumber := no))
  {
  }

  /** The row inserted for a valid request: the hashed password, the role
      forced to USER, the requested initial balance, the generated number. */
  function NewAccount(id: int, req: AccountRequest, hashed: string, no: string, now: int): (a: Account)
    ensures a.id == id && a.role == UserRole && a.passwordHash == hashed
    ensures a.name == req.name && a.email == req.email && a.nik == req.nik && a.phone == req.phone
    ensures a.balance == req.balance && a.accountNumber == no
    ensures a.createdAt == now && a.updatedAt == now
  {
    Account(id, req.name, req.email, hashed, UserRole, req.nik, req.phone, req.balance, no, now, now)
  }

  /** CreateAcoount. `draw` is rand.Int63n(1e10); `hash` is the password
      hashing, None when it fails; the drawn number is not yet in use. */
  function CreateAccount(s: State, req: AccountRequest, draw: nat,
                         hash: string -> Option<string>, now: int): (r: Step<string>)
    requires draw < AccountNumberBound
    requires AccountNumber(draw) !in s.accounts
    ensures r.outcome.Err? ==> r.state == s
    ensures r.outcome == Err(InvalidRequest) <==> MissingField(req)
    ensures r.outcome == Err(HashFailed) <==> !MissingField(req) && hash(req.password).None?
    ensures r.outcome.Ok? <==> !MissingField(req) && hash(req.password).Some?
    ensures r.outcome.Ok? ==>
      var no := r.outcome.value;
      && no == AccountNumber(draw)
      && ValidateNumberString(no) && 1 <= |no| <= 10
      && no !in s.accounts
      && r.state.accounts.Keys == s.accounts.Keys + {no}
      && (forall k | k in s.accounts :: r.state.accounts[k] == s.accounts[k])
      && r.state.accounts[no].role == UserRole
      && r.state.accounts[no].balance == req.balance
      && Some(r.state.accounts[no].passwordHash) == hash(req.password)
      && r.state.accounts[no].accountNumber == no
      && r.state.accounts[no].id == s.nextId
      && r.state.accounts[no].name == req.name
      && r.state.accounts[no].email == req.email
      && r.state.accounts[no].nik == req.nik
      && r.state.accounts[no].phone == req.phone
      && r.state.accounts[no].createdAt == now == r.state.accounts[no].updatedAt
      && r.state.ledger == s.ledger
      && r.state.nextId == s.nextId + 1
  {
    if MissingField(req) then Step(s, Err(InvalidRequest))
    else
      var no := AccountNumber(draw);
      match hash(req.password)
      case None => Step(s, Err(HashFailed))
      case Some(hashed) =>
        var account := NewAccount(s.nextId, req, hashed, no, now);
        Step(State(s.accounts[no := account], s.ledger, s.nextId + 1), Ok(no))
  }

  // ---------------------------------------------------------------------
  // Reads

  /** An account as the read queries return it: every column but the
      password hash, which is left empty. */
  function WithoutPasswordHash(a: Account): (r: Account)
    ensures r.passwordHash == ""
    ensures r.(passwordHash := a.passwordHash) == a
  {
    a.(passwordHash := "")
  }

  /** GetSaldo: the account stored under the given number. */
  function GetBalance(s: State, no: string): (r: Outcome<Account>)
    ensures r.Ok? <==> no in s.accounts
    ensures r.Err? ==> r.error == AccountNotFound
    ensures r.Ok? ==>
      && r.value.passwordHash == ""
      && r.value.balance == s.accounts[no].balance
      && r.value.(passwordHash := s.accounts[no].passwordHash) == s.accounts[no]
  {
    if no in s.accounts then Ok(WithoutPasswordHash(s.accounts[no])) else Err(AccountNotFound)
  }

  // ---------------------------------------------------------------------
  // Deposit and withdrawal

  /** The body deposit and withdrawal bind: only the number and the amount. */
  function TransferRequest(no: string, amount: real): AccountRequest {
    AccountRequest("", "", "", 0, "", "", amount, no)
  }

  /** The ledger row written after a successful deposit or withdrawal. */
  function Receipt(accountId: int, code: string, amount: real, no: string, now: int): (t: Transaction)
    ensures t.status == StatusSuccess && t.remark == Remark
    ensures t.totalAmount == amount && t.accountId == accountId && t.accountNumberTo == no
    ensures t.code == code && t.createdAt == now && t.updatedAt == now
  {
    Transaction(accountId, code, amount, StatusSuccess, no, Remark, now, now)
  }

  /** TopupSaldo. `code` is the transaction code generated for the request. */
  function Deposit(s: State, req: AccountRequest, code: string, now: int): (r: Step<real>)
    ensures req.accountNumber !in s.accounts ==> r == Step(s, Err(AccountNotFound))
    ensures req.accountNumber in s.accounts && req.balance <= 0.0 ==> r == Step(s, Err(InvalidAmount))
    ensures r.outcome.Ok? <==> req.accountNumber in s.accounts && req.balance > 0.0
    ensures r.outcome.Ok? ==>
      var no := req.accountNumber;
      var before := s.accounts[no];
      && r.outcome.value == before.balance + req.balance
      && r.outcome.value > before.balance
      && r.state.accounts == s.accounts[no := before.(balance := r.outcome.value)]
      && r.state.ledger == s.ledger + [Receipt(before.id, code, req.balance, no, now)]
      && r.state.nextId == s.nextId
  {
    var no := req.accountNumber;
    if no !in s.accounts then Step(s, Err(AccountNotFound))
    else
      var before := s.accounts[no];
      if req.balance <= 0.0 then Step(s, Err(InvalidAmount))
      else
        var newBalance := before.balance + req.balance;
        var accounts := s.accounts[no := before.(balance := newBalance)];
        Step(State(accounts, s.ledger + [Receipt(before.id, code, req.balance, no, now)], s.nextId),
             Ok(newBalance))
  }

  /** TarikSaldo. Only an amount above the balance is refused. */
  function Withdraw(s: State, req: AccountRequest, code: string, now: int): (r: Step<real>)
    ensures req.accountNumber !in s.accounts ==> r == Step(s, Err(AccountNotFound))
    ensures req.accountNumber in s.accounts && req.balance > s.accounts[req.accountNumber].balance
            ==> r == Step(s, Err(InsufficientFunds))
    ensures r.outcome.Ok? <==>
            req.accountNumber in s.accounts && req.balance <= s.accounts[req.accountNumber].balance
    ensures r.outcome.Ok? ==>
      var no := req.accountNumber;
      var before := s.accounts[no];
      && r.outcome.value == before.balance - req.balance
      && r.outcome.value >= 0.0
      && r.state.accounts == s.accounts[no := before.(balance := r.outcome.value)]
      && r.state.ledger == s.ledger + [Receipt(before.id, code, req.balance, no, now)]
      && r.state.nextId == s.nextId
  {
    var no := req.accountNumber;
    if no !in s.accounts then Step(s, Err(AccountNotFound))
    else
      var before := s.accounts[no];
      if req.balance > before.balance then Step(s, Err(InsufficientFunds))
      else
        var newBalance := before.balance - req.balance;
        var accounts := s.accounts[no := before.(balance := newBalance)];
        Step(State(accounts, s.ledger + [Receipt(before.id, code, req.balance, no, now)], s.nextId),
             Ok(newBalance))
  }

  // ---------------------------------------------------------------------
  // Invariants kept by the operations

  lemma CreateAccountKeepsConsistent(s: State, req: AccountRequest, draw: nat,
                                     hash: string -> Option<string>, now: int)
    requires Consistent(s)
    requires draw < AccountNumberBound && AccountNumber(draw) !in s.accounts
    ensures Consistent(CreateAccount(s, req, draw, hash, now).state)
  {
  }

  lemma DepositKeepsConsistent(s: State, req: AccountRequest, code: string, now: int)
    requires Consistent(s)
    ensures Consistent(Deposit(s, req, code, now).state)
  {
  }

  lemma WithdrawKeepsConsistent(s: State, req: AccountRequest, code: string, now: int)
    requires Consistent(s)
    ensures Consistent(Withdraw(s, req, code, now).state)
  {
  }

  /** Deposits and withdrawals never leave a negative balance behind. */
  lemma MutationsKeepBalancesNonNegative(s: State, req: AccountRequest, code: string, now: int)
    requires NonNegativeBalances(s)
    ensures NonNegativeBalances(Deposit(s, req, code, now).state)
    ensures NonNegativeBalances(Withdraw(s, req, code, now).state)
  {
  }

  /** Creation keeps every balance non-negative exactly when the requested
      initial balance is non-negative or the request is refused: the initial
      balance is stored without a sign check. */
  lemma CreateAccountBalanceSign(s: State, req: AccountRequest, draw: nat,
                                 hash: string -> Option<string>, now: int)
    requires NonNegativeBalances(s)
    requires draw < AccountNumberBound && AccountNumber(draw) !in s.accounts
    ensures var r := CreateAccount(s, req, draw, hash, now);
      NonNegativeBalances(r.state) <==> r.outcome.Err? || req.balance >= 0.0
  {
  }

  // ---------------------------------------------------------------------
  // Properties over several requests

  /** A balance lookup right after creation reports the initial balance. */
  lemma LookupAfterCreate(s: State, req: AccountRequest, draw: nat,
                          hash: string -> Option<string>, now: int)
    requires draw < AccountNumberBound && AccountNumber(draw) !in s.accounts
    requires !MissingField(req) && hash(req.password).Some?
    ensures var r := CreateAccount(s, req, draw, hash, now);
      && r.outcome == Ok(AccountNumber(draw))
      && GetBalance(r.state, AccountNumber(draw)).Ok?
      && GetBalance(r.state, AccountNumber(draw)).value.balance == req.balance
      && GetBalance(r.state, AccountNumber(draw)).value.role == UserRole
  {
  }

  function Sum(amounts: seq<real>): real {
    if amounts == [] then 0.0 else amounts[0] + Sum(amounts[1..])
  }

  /** The same account receives the given deposits one after another, the
      i-th carrying its own transaction code codes[i] and timestamp nows[i]. */
  function DepositEach(s: State, no: string, amounts: seq<real>, codes: seq<string>, nows: seq<int>): State
    requires |codes| == |nows| == |amounts|
    decreases |amounts|
  {
    if amounts == [] then s
    else DepositEach(Deposit(s, TransferRequest(no, amounts[0]), codes[0], nows[0]).state,
                     no, amounts[1..], codes[1..], nows[1..])
  }

  /** After N accepted deposits the balance is the initial one plus their sum,
      the ledger holds exactly N more rows, one per deposit in order with its
      own code and timestamp, and nothing else has changed. */
  lemma {:induction false} RepeatedDeposits(s: State, no: string, amounts: seq<real>,
                                            codes: seq<string>, nows: seq<int>)
    requires no in s.accounts
    requires |codes| == |nows| == |amounts|
    requires forall i | 0 <= i < |amounts| :: amounts[i] > 0.0
    ensures var t := DepositEach(s, no, amounts, codes, nows);
      && t.accounts.Keys == s.accounts.Keys
      && t.accounts[no] == s.accounts[no].(balance := s.accounts[no].balance + Sum(amounts))
      && (forall k | k in s.accounts && k != no :: t.accounts[k] == s.accounts[k])
      && |t.ledger| == |s.ledger| + |amounts|
      && t.ledger[..|s.ledger|] == s.ledger
      && (forall i | 0 <= i < |amounts| ::
            t.ledger[|s.ledger| + i] == Receipt(s.accounts[no].id, codes[i], amounts[i], no, nows[i]))
      && t.nextId == s.nextId
    decreases |amounts|
  {
    var t := DepositEach(s, no, amounts, codes, nows);
    if amounts == [] {
      assert t == s;
    } else {
      var first := Deposit(s, TransferRequest(no, amounts[0]), codes[0], nows[0]);
      var s1 := first.state;
      var rest := amounts[1..];
      assert first.outcome.Ok?;
      RepeatedDeposits(s1, no, rest, codes[1..], nows[1..]);
      assert t == DepositEach(s1, no, rest, codes[1..], nows[1..]);
      assert Sum(amounts) == amounts[0] + Sum(rest);
      assert s1.ledger[..|s.ledger|] == s.ledger;
      assert t.ledger[..|s.ledger|] == t.ledger[..|s1.ledger|][..|s.ledger|];
      forall i | 0 <= i < |amounts|
        ensures t.ledger[|s.ledger| + i] == Receipt(s.accounts[no].id, codes[i], amounts[i], no, nows[i])
      {
        if i == 0 {
          assert t.ledger[|s.ledger|] == t.ledger[..|s1.ledger|][|s.ledger|];
        } else {
          assert t.ledger[|s.ledger| + i] == t.ledger[|s1.ledger| + (i - 1)];
          assert rest[i - 1] == amounts[i] && codes[1..][i - 1] == codes[i] && nows[1..][i - 1] == nows[i];
        }
      }
    }
  }

  /** A deposit and a withdrawal of the same amount write identical ledger
      rows (unsigned amount, same remark), yet move the balance in opposite
      directions: the ledger alone cannot tell them apart. */
  lemma LedgerOmitsDirection(s: State, no: string, amount: real, code: string, now: int)
    requires no in s.accounts && 0.0 < amount <= s.accounts[no].balance
    ensures var d := Deposit(s, TransferRequest(no, amount), code, now);
      var w := Withdraw(s, TransferRequest(no, amount), code, now);
      && d.outcome.Ok? && w.outcome.Ok?
      && d.state.ledger == w.state.ledger
      && d.state.ledger[|s.ledger|].totalAmount == amount
      && d.state.ledger[|s.ledger|].remark == Remark
      && d.outcome.value - w.outcome.value == 2.0 * amount
  {
  }

  /** A withdrawal of a negative amount is accepted and raises the balance;
      one of zero is accepted and still writes a ledger row. */
  lemma WithdrawNonPositiveAccepted(s: State, no: string, amount: real, code: string, now: int)
    requires no in s.accounts && s.accounts[no].balance >= 0.0 && amount <= 0.0
    ensures var w := Withdraw(s, TransferRequest(no, amount), code, now);
      && w.outcome.Ok?
      && w.outcome.value >= s.accounts[no].balance
      && (amount < 0.0 ==> w.outcome.value > s.accounts[no].balance)
      && |w.state.ledger| == |s.ledger| + 1
  {
  }

  /** From a negative balance, which account creation allows, every
      withdrawal of zero or more is refused, and nothing changes. */
  lemma WithdrawFromNegativeBalance(s: State, no: string, amount: real, code: string, now: int)
    requires no in s.accounts && s.accounts[no].balance < 0.0 && amount >= 0.0
    ensures Withdraw(s, TransferRequest(no, amount), code, now) == Step(s, Err(InsufficientFunds))
  {
  }
}
