/**
 * The request handlers of src/index.js over the process-wide `customers`
 * array, gathered in one `Ledger` object. Every handler except account
 * creation first resolves the customer by CPF (`verifyIfAccountExists`)
 * and fails with `CustomerNotFound` when there is none.
 */
module Accounts {
  import opened Wrappers
  import opened Statement
  import opened Registry

  /** The error responses of the handlers. */
  datatype Error = CustomerNotFound | CustomerAlreadyExists | InsufficientFunds

  class Ledger {
    /** The registered customers, in registration order. */
    var customers: seq<Customer>

    /** CPFs and ids are unique across all customers. */
    ghost predicate Valid()
      reads this
    {
      CpfsDistinct(customers) && IdsDistinct(customers)
    }

    /** The ledger at process start: no customers. */
    constructor ()
      ensures Valid() && customers == []
    {
      customers := [];
    }

    /** GET /account: the resolved customer. */
    method GetAccount(cpf: string) returns (r: Result<Customer, Error>)
      requires Valid()
      ensures r.Failure? <==> !Registered(customers, cpf)
      ensures r.Failure? ==> r.error == CustomerNotFound
      ensures r.Success? ==> r.value in customers && r.value.cpf == cpf
    {
      var found := FindIndex(customers, cpf);
      if found.None? {
        return Failure(CustomerNotFound);
      }
      r := Success(customers[found.value]);
    }

    /**
     * POST /account: registers a customer with an empty statement unless the
     * CPF is already taken. `id` is the uuid the handler generates.
     */
    method CreateAccount(cpf: string, name: string, id: string) returns (r: Outcome<Error>)
      requires Valid()
      requires FreshId(customers, id)
      modifies this
      ensures Valid()
      ensures r == if Registered(old(customers), cpf) then Fail(CustomerAlreadyExists) else Pass
      ensures r.Fail? ==> customers == old(customers)
      ensures r.Pass? ==> customers == old(customers) + [Customer(cpf, name, id, [])]
      ensures r.Pass? ==> FindIndex(customers, cpf) == Some(|old(customers)|)
    {
      if Registered(customers, cpf) {
        return Fail(CustomerAlreadyExists);
      }
      AppendKeepsDistinct(customers, Customer(cpf, name, id, []));
      customers := customers + [Customer(cpf, name, id, [])];
      r := Pass;
    }

    /** PUT /account: sets the resolved customer's name and nothing else. */
    method UpdateAccount(cpf: string, name: string) returns (r: Outcome<Error>)
      requires Valid()
      modifies this
      ensures Valid()
      ensures r == if Registered(old(customers), cpf) then Pass else Fail(CustomerNotFound)
      ensures r.Fail? ==> customers == old(customers)
      ensures r.Pass? ==>
        var k := FindIndex(old(customers), cpf).value;
        customers == old(customers)[k := old(customers)[k].(name := name)]
      ensures |customers| == |old(customers)|
      ensures forall j | 0 <= j < |customers| ::
        customers[j].cpf == old(customers)[j].cpf &&
        customers[j].id == old(customers)[j].id &&
        customers[j].statement == old(customers)[j].statement
    {
      var found := FindIndex(customers, cpf);
      if found.None? {
        return Fail(CustomerNotFound);
      }
      var k := found.value;
      UpdateKeepsDistinct(customers, k, customers[k].(name := name));
      customers := customers[k := customers[k].(name := name)];
      r := Pass;
    }

    /**
     * DELETE /account as written: `customers.splice(customer, 1)` hands the
     * customer object to splice as its start index, which becomes 0, so the
     * first customer is removed whichever one was resolved.
     */
    method DeleteAccount(cpf: string) returns (r: Outcome<Error>)
      requires Valid()
      modifies this
      ensures Valid()
      ensures r == if Registered(old(customers), cpf) then Pass else Fail(CustomerNotFound)
      ensures r.Fail? ==> customers == old(customers)
      ensures r.Pass? ==> |old(customers)| > 0 && customers == old(customers)[1..]
      ensures r.Pass? ==> (Registered(customers, cpf) <==> FindIndex(old(customers), cpf) != Some(0))
    {
      var found := FindIndex(customers, cpf);
      if found.None? {
        return Fail(CustomerNotFound);
      }
      SpliceObjectRemovesFirst(customers, cpf, found.value);
      RemoveKeepsDistinct(customers, ObjectAsStart);
      customers := Splice(customers, ObjectAsStart, 1);
      r := Pass;
    }

    /**
     * DELETE /account as evidently intended: removes the resolved customer
     * itself, at its own position.
     */
    method DeleteResolvedAccount(cpf: string) returns (r: Outcome<Error>)
      requires Valid()
      modifies this
      ensures Valid()
      ensures r == if Registered(old(customers), cpf) then Pass else Fail(CustomerNotFound)
      ensures r.Fail? ==> customers == old(customers)
      ensures r.Pass? ==>
        var k := FindIndex(old(customers), cpf).value;
        customers == old(customers)[..k] + old(customers)[k + 1..]
      ensures r.Pass? ==> forall j | 0 <= j < |old(customers)| && old(customers)[j].cpf != cpf :: old(customers)[j] in customers
      ensures !Registered(customers, cpf)
    {
      var found := FindIndex(customers, cpf);
      if found.None? {
        return Fail(CustomerNotFound);
      }
      SpliceResolvedRemovesIt(customers, cpf, found.value);
      RemoveKeepsDistinct(customers, found.value);
      customers := Splice(customers, found.value, 1);
      r := Pass;
    }

    /** GET /statement: the resolved customer's whole statement. */
    method GetStatement(cpf: string) returns (r: Result<seq<Operation>, Error>)
      requires Valid()
      ensures r.Failure? <==> !Registered(customers, cpf)
      ensures r.Failure? ==> r.error == CustomerNotFound
      ensures r.Success? ==> exists k | 0 <= k < |customers| :: customers[k].cpf == cpf && customers[k].statement == r.value
    {
      var found := FindIndex(customers, cpf);
      if found.None? {
        return Failure(CustomerNotFound);
      }
      r := Success(customers[found.value].statement);
    }

    /** GET /statement/date: the resolved customer's operations of `day`, in order. */
    method GetStatementByDate(cpf: string, day: int) returns (r: Result<seq<Operation>, Error>)
      requires Valid()
      ensures r.Failure? <==> !Registered(customers, cpf)
      ensures r.Failure? ==> r.error == CustomerNotFound
      ensures r.Success? ==>
        var s := customers[FindIndex(customers, cpf).value].statement;
        r.value == OnDay(s, day) &&
        IsSubsequence(r.value, s) &&
        forall op :: multiset(r.value)[op] == if op.createdDay == day then multiset(s)[op] else 0
    {
      var found := FindIndex(customers, cpf);
      if found.None? {
        return Failure(CustomerNotFound);
      }
      var s := customers[found.value].statement;
      OnDayIsSubsequence(s, day);
      OnDayCounts(s, day);
      r := Success(OnDay(s, day));
    }

    /** POST /deposit: appends a credit of `amount` to the resolved customer's statement, unchecked. */
    method Deposit(cpf: string, description: string, amount: int, today: int) returns (r: Outcome<Error>)
      requires Valid()
      modifies this
      ensures Valid()
      ensures r == if Registered(old(customers), cpf) then Pass else Fail(CustomerNotFound)
      ensures r.Fail? ==> customers == old(customers)
      ensures r.Pass? ==>
        var k := FindIndex(old(customers), cpf).value;
        var c := old(customers)[k];
        customers == old(customers)[k := c.(statement := Deposited(c.statement, description, amount, today))] &&
        Balance(customers[k].statement) == Balance(c.statement) + amount
    {
      var found := FindIndex(customers, cpf);
      if found.None? {
        return Fail(CustomerNotFound);
      }
      var k := found.value;
      var c := customers[k];
      var op := Operation(description, amount, today, Credit);
      DepositRaisesBalance(c.statement, description, amount, today);
      UpdateKeepsDistinct(customers, k, c.(statement := c.statement + [op]));
      customers := customers[k := c.(statement := c.statement + [op])];
      r := Pass;
    }

    /**
     * POST /withdraw: refuses when the balance is below `amount`; otherwise
     * appends a "Withdraw" debit, which leaves a non-negative balance.
     */
    method Withdraw(cpf: string, amount: int, today: int) returns (r: Outcome<Error>)
      requires Valid()
      modifies this
      ensures Valid()
      ensures r ==
        if !Registered(old(customers), cpf) then Fail(CustomerNotFound)
        else if Balance(old(customers)[FindIndex(old(customers), cpf).value].statement) < amount then Fail(InsufficientFunds)
        else Pass
      ensures r.Fail? ==> customers == old(customers)
      ensures r.Pass? ==>
        var k := FindIndex(old(customers), cpf).value;
        var c := old(customers)[k];
        Withdrawn(c.statement, amount, today).Some? &&
        customers == old(customers)[k := c.(statement := Withdrawn(c.statement, amount, today).value)] &&
        Balance(customers[k].statement) == Balance(c.statement) - amount &&
        Balance(customers[k].statement) >= 0
    {
      var found := FindIndex(customers, cpf);
      if found.None? {
        return Fail(CustomerNotFound);
      }
      var k := found.value;
      var c := customers[k];
      var balance := Balance(c.statement);
      if balance < amount {
        return Fail(InsufficientFunds);
      }
      var op := Operation(WithdrawDescription, amount, today, Debit);
      WithdrawOutcome(c.statement, amount, today);
      UpdateKeepsDistinct(customers, k, c.(statement := c.statement + [op]));
      customers := customers[k := c.(statement := c.statement + [op])];
      r := Pass;
    }

    /** GET /balance: the balance of the resolved customer's statement. */
    method GetBalance(cpf: string) returns (r: Result<int, Error>)
      requires Valid()
      ensures r == if Registered(customers, cpf)
                   then Success(Balance(customers[FindIndex(customers, cpf).value].statement))
                   else Failure(CustomerNotFound)
    {
      var found := FindIndex(customers, cpf);
      if found.None? {
        return Failure(CustomerNotFound);
      }
      r := Success(Balance(customers[found.value].statement));
    }
  }

  /** Register, deposit 100, withdraw 30: the balance is 70; a second registration of the CPF is refused. */
  method DepositThenWithdrawScenario()
  {
    var ledger := new Ledger();
    var created := ledger.CreateAccount("111", "Alice", "id-1");
    assert created == Pass;
    var again := ledger.CreateAccount("111", "Alice again", "id-2");
    assert again == Fail(CustomerAlreadyExists);
    var deposited := ledger.Deposit("111", "salary", 100, 1);
    BalanceSnoc([], Operation("salary", 100, 1, Credit));
    var withdrawn := ledger.Withdraw("111", 30, 1);
    assert withdrawn == Pass;
    var balance := ledger.GetBalance("111");
    assert balance == Success(70);
  }

  /** A withdrawal of 1 on a fresh account is refused and the balance stays 0. */
  method OverdraftScenario()
  {
    var ledger := new Ledger();
    var created := ledger.CreateAccount("111", "Alice", "id-1");
    var withdrawn := ledger.Withdraw("111", 1, 1);
    assert withdrawn == Fail(InsufficientFunds);
    var balance := ledger.GetBalance("111");
    assert balance == Success(0);
  }

  /** Deleting the second of two customers removes the first; the corrected delete removes the second. */
  method DeleteScenario()
  {
    var ledger := new Ledger();
    var a := ledger.CreateAccount("111", "Alice", "id-1");
    var b := ledger.CreateAccount("222", "Bob", "id-2");
    var deleted := ledger.DeleteAccount("222");
    var bob := ledger.GetAccount("222");
    assert bob.Success?;
    var alice := ledger.GetAccount("111");
    assert alice.Failure?;

    var fixedLedger := new Ledger();
    a := fixedLedger.CreateAccount("111", "Alice", "id-1");
    b := fixedLedger.CreateAccount("222", "Bob", "id-2");
    deleted := fixedLedger.DeleteResolvedAccount("222");
    bob := fixedLedger.GetAccount("222");
    assert bob.Failure?;
    alice := fixedLedger.GetAccount("111");
    assert alice.Success?;
  }

  /** Deposits on day 1 and on day 2: the view of day 1 holds exactly the first deposit. */
  method ByDateScenario()
  {
    var ledger := new Ledger();
    var created := ledger.CreateAccount("111", "Alice", "id-1");
    var first := ledger.Deposit("111", "rent", 10, 1);
    var second := ledger.Deposit("111", "gift", 20, 2);
    var view := ledger.GetStatementByDate("111", 1);
    OnDaySnoc([Operation("rent", 10, 1, Credit)], Operation("gift", 20, 2, Credit), 1);
    assert view == Success([Operation("rent", 10, 1, Credit)]);
  }
}
