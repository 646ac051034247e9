/** The handlers as they run against the store: each reads the account row,
    validates, computes the new balance, writes it back and appends one
    ledger row, in that order. */
module BankService {
  import opened Wrappers
  import opened Digits
  import opened TransactionCodes
  import opened Bank

  class BankStore {
    var accounts: map<string, Account>
    var ledger: seq<Transaction>
    var nextId: int

    /** The store's contents as a value. */
    function Model(): State
      reads this
    {
      State(accounts, ledger, nextId)
    }

    ghost predicate Valid()
      reads this
    {
      Consistent(Model())
    }

    /** An empty store; account ids start at 1. */
    constructor ()
      ensures Valid() && NonNegativeBalances(Model())
      ensures Model() == EmptyStore
    {
      accounts := map[];
      ledger := [];
      nextId := 1;
    }

    /** CreateAcoount: validate the required fields, take the drawn number,
        hash the password, force the role to USER, insert the row. */
    method CreateAccount(req: AccountRequest, draw: nat, hash: string -> Option<string>, now: int)
      returns (r: Outcome<string>)
      requires Valid()
      requires draw < AccountNumberBound && AccountNumber(draw) !in accounts
      modifies this
      ensures Valid()
      ensures Step(Model(), r) == Bank.CreateAccount(old(Model()), req, draw, hash, now)
    {
      CreateAccountKeepsConsistent(Model(), req, draw, hash, now);
      if MissingField(req) {
        return Err(InvalidRequest);
      }
      var no := AccountNumber(draw);
      var hashed := hash(req.password);
      if hashed.None? {
        return Err(HashFailed);
      }
      accounts := accounts[no := NewAccount(nextId, req, hashed.value, no, now)];
      nextId := nextId + 1;
      r := Ok(no);
    }

    /** GetAccount: every account, without its password hash, each once. */
    method ListAccounts() returns (list: seq<Account>)
      requires Valid()
      ensures |list| == |accounts|
      ensures forall i | 0 <= i < |list| ::
        list[i].accountNumber in accounts && list[i] == WithoutPasswordHash(accounts[list[i].accountNumber])
      ensures forall no | no in accounts :: exists i | 0 <= i < |list| :: list[i].accountNumber == no
      ensures forall i, j | 0 <= i < j < |list| :: list[i].accountNumber != list[j].accountNumber
    {
      list := [];
      var remaining := accounts.Keys;
      while remaining != {}
        invariant remaining <= accounts.Keys
        invariant |list| + |remaining| == |accounts|
        invariant forall i | 0 <= i < |list| ::
          list[i].accountNumber in accounts.Keys - remaining
          && list[i] == WithoutPasswordHash(accounts[list[i].accountNumber])
        invariant forall no | no in accounts.Keys - remaining ::
          exists i | 0 <= i < |list| :: list[i].accountNumber == no
        invariant forall i, j | 0 <= i < j < |list| :: list[i].accountNumber != list[j].accountNumber
        decreases remaining
      {
        var no :| no in remaining;
        ghost var before, done := list, accounts.Keys - remaining;
        list := list + [WithoutPasswordHash(accounts[no])];
        remaining := remaining - {no};
        forall k | k in accounts.Keys - remaining
          ensures exists i | 0 <= i < |list| :: list[i].accountNumber == k
        {
          if k == no {
            assert list[|list| - 1].accountNumber == k;
          } else {
            assert k in done;
            var i :| 0 <= i < |before| && before[i].accountNumber == k;
            assert list[i] == before[i];
          }
        }
      }
      assert accounts.Keys - remaining == accounts.Keys;
    }

    /** GetSaldo: the row stored under the number. */
    method GetBalance(no: string) returns (r: Outcome<Account>)
      ensures r == Bank.GetBalance(Model(), no)
    {
      if no !in accounts {
        return Err(AccountNotFound);
      }
      r := Ok(WithoutPasswordHash(accounts[no]));
    }

    /** TopupSaldo: look up, refuse an amount <= 0, generate the code, write
        the balance, append the ledger row. */
    method Deposit(req: AccountRequest, draws: seq<int>, date: Date, now: int)
      returns (r: Outcome<real>)
      requires Valid()
      requires ValidDraws(draws) && ValidDate(date)
      modifies this
      ensures Valid()
      ensures Step(Model(), r) == Bank.Deposit(old(Model()), req, TransactionCodeOf(draws, date), now)
    {
      DepositKeepsConsistent(Model(), req, TransactionCodeOf(draws, date), now);
      var no := req.accountNumber;
      if no !in accounts {
        return Err(AccountNotFound);
      }
      var row := accounts[no];
      if req.balance <= 0.0 {
        return Err(InvalidAmount);
      }
      var newBalance := row.balance + req.balance;
      var code := GenerateTransaction(draws, date);
      accounts := accounts[no := row.(balance := newBalance)];
      ledger := ledger + [Receipt(row.id, code, req.balance, no, now)];
      r := Ok(newBalance);
    }

    /** TarikSaldo: look up, refuse an amount above the balance, write the
        balance, generate the code, append the ledger row. */
    method Withdraw(req: AccountRequest, draws: seq<int>, date: Date, now: int)
      returns (r: Outcome<real>)
      requires Valid()
      requires ValidDraws(draws) && ValidDate(date)
      modifies this
      ensures Valid()
      ensures Step(Model(), r) == Bank.Withdraw(old(Model()), req, TransactionCodeOf(draws, date), now)
    {
      WithdrawKeepsConsistent(Model(), req, TransactionCodeOf(draws, date), now);
      var no := req.accountNumber;
      if no !in accounts {
        return Err(AccountNotFound);
      }
      var row := accounts[no];
      if req.balance > row.balance {
        return Err(InsufficientFunds);
      }
      var newBalance := row.balance - req.balance;
      accounts := accounts[no := row.(balance := newBalance)];
      var code := GenerateTransaction(draws, date);
      ledger := ledger + [Receipt(row.id, code, req.balance, no, now)];
      r := Ok(newBalance);
    }
  }

  /** The end-to-end scenario run against a new store: open an account with
      balance 0, deposit 500, withdraw 200, then fail to withdraw 1000. */
  method Scenario(req: AccountRequest, draw: nat, hash: string -> Option<string>, now: int,
                  draws: seq<int>, date: Date)
    returns (refused: Outcome<real>, balance: real, rows: seq<Transaction>)
    requires draw < AccountNumberBound
    requires !MissingField(req) && hash(req.password).Some? && req.balance == 0.0
    requires ValidDraws(draws) && ValidDate(date)
    ensures refused == Err(InsufficientFunds)
    ensures balance == 300.0
    ensures |rows| == 2
    ensures rows[0].totalAmount == 500.0 && rows[1].totalAmount == 200.0
    ensures rows[0].remark == Remark && rows[1].remark == Remark
    ensures rows[0].accountNumberTo == rows[1].accountNumberTo == AccountNumber(draw)
  {
    var store := new BankStore();
    var created := store.CreateAccount(req, draw, hash, now);
    var no := AccountNumber(draw);
    var deposited := store.Deposit(TransferRequest(no, 500.0), draws, date, now);
    assert deposited == Ok(500.0);
    var withdrawn := store.Withdraw(TransferRequest(no, 200.0), draws, date, now);
    assert withdrawn == Ok(300.0);
    refused := store.Withdraw(TransferRequest(no, 1000.0), draws, date, now);
    var lookup := store.GetBalance(no);
    balance := lookup.value.balance;
    rows := store.ledger;
  }
}
