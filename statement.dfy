/**
 * An account statement: the ordered list of operations of one customer,
 * the balance derived from it by `getBalance` (src/index.js), the
 * statement-by-date view, and the two operations that append to it.
 */
module Statement {
  import opened Wrappers

  /** The `type` tags the handlers write. */
  const Credit: string := "credit"
  const Debit: string := "debit"

  /** The fixed description of every withdrawal. */
  const WithdrawDescription: string := "Withdraw"

  /**
   * One statement entry. `createdDay` stands for the calendar day of
   * `created_at`; `kind` is the source's free-form `type` string.
   */
  datatype Operation = Operation(description: string, amount: int, createdDay: int, kind: string)

  // ---------------------------------------------------------------------------
  // Balance

  /** The reducer of `getBalance`: "credit" adds its amount, any other type subtracts it. */
  function Apply(acc: int, op: Operation): int
  {
    if op.kind == Credit then acc + op.amount else acc - op.amount
  }

  /** A left fold of `Apply` over `s`, starting from `acc` (Array.prototype.reduce). */
  function Fold(acc: int, s: seq<Operation>): int
    decreases |s|
  {
    if s == [] then acc else Fold(Apply(acc, s[0]), s[1..])
  }

  /** `getBalance(statement)`: the fold started from 0. */
  function Balance(s: seq<Operation>): int
  {
    Fold(0, s)
  }

  /** Folding over one more operation applies the reducer once more to the old result. */
  lemma {:induction false} FoldSnoc(acc: int, s: seq<Operation>, op: Operation)
    ensures Fold(acc, s + [op]) == Apply(Fold(acc, s), op)
    decreases |s|
  {
    if s != [] {
      assert (s + [op])[1..] == s[1..] + [op];
      FoldSnoc(Apply(acc, s[0]), s[1..], op);
    }
  }

  /** The balance of the empty statement is 0, and each appended operation moves it by its signed amount. */
  lemma BalanceSnoc(s: seq<Operation>, op: Operation)
    ensures Balance([]) == 0
    ensures Balance(s + [op]) == if op.kind == Credit then Balance(s) + op.amount else Balance(s) - op.amount
  {
    FoldSnoc(0, s, op);
  }

  /** Sum of the amounts of the "credit" operations (reference definition). */
  function Credits(s: seq<Operation>): int
    decreases |s|
  {
    if s == [] then 0
    else Credits(s[..|s| - 1]) + (if s[|s| - 1].kind == Credit then s[|s| - 1].amount else 0)
  }

  /** Sum of the amounts of all other operations (reference definition). */
  function Debits(s: seq<Operation>): int
    decreases |s|
  {
    if s == [] then 0
    else Debits(s[..|s| - 1]) + (if s[|s| - 1].kind == Credit then 0 else s[|s| - 1].amount)
  }

  /** The fold computes credits minus debits over the whole statement. */
  lemma {:induction false} BalanceIsCreditsMinusDebits(s: seq<Operation>)
    ensures Balance(s) == Credits(s) - Debits(s)
    decreases |s|
  {
    if s != [] {
      var init, last := s[..|s| - 1], s[|s| - 1];
      assert s == init + [last];
      BalanceIsCreditsMinusDebits(init);
      BalanceSnoc(init, last);
    }
  }

  // ---------------------------------------------------------------------------
  // Statement by date

  /** `statement.filter(...)`: the operations created on `day`, in statement order. */
  function OnDay(s: seq<Operation>, day: int): (r: seq<Operation>)
    ensures |r| <= |s|
    ensures forall k | 0 <= k < |r| :: r[k].createdDay == day
    decreases |s|
  {
    if s == [] then []
    else if s[0].createdDay == day then [s[0]] + OnDay(s[1..], day)
    else OnDay(s[1..], day)
  }

  /** `a` is `b` with some elements left out, the rest kept in order. */
  predicate IsSubsequence<T(==)>(a: seq<T>, b: seq<T>)
    decreases |b|
  {
    if a == [] then true
    else if b == [] then false
    else if a[0] == b[0] then IsSubsequence(a[1..], b[1..])
    else IsSubsequence(a, b[1..])
  }

  /** The by-date view keeps the statement's order. */
  lemma {:induction false} OnDayIsSubsequence(s: seq<Operation>, day: int)
    ensures IsSubsequence(OnDay(s, day), s)
    decreases |s|
  {
    if s != [] {
      OnDayIsSubsequence(s[1..], day);
      if s[0].createdDay != day {
        var r := OnDay(s[1..], day);
        if r != [] {
          assert r[0].createdDay == day;
        }
      }
    }
  }

  /** The by-date view holds every operation of that day as often as the statement does, and nothing else. */
  lemma {:induction false} OnDayCounts(s: seq<Operation>, day: int)
    ensures forall op :: multiset(OnDay(s, day))[op] == if op.createdDay == day then multiset(s)[op] else 0
    decreases |s|
  {
    if s != [] {
      OnDayCounts(s[1..], day);
      assert s == [s[0]] + s[1..];
      assert multiset(s) == multiset{s[0]} + multiset(s[1..]);
    }
  }

  /** Filtering a statement that grew by one operation. */
  lemma {:induction false} OnDaySnoc(s: seq<Operation>, op: Operation, day: int)
    ensures OnDay(s + [op], day) == OnDay(s, day) + (if op.createdDay == day then [op] else [])
    decreases |s|
  {
    if s == [] {
      assert [op][1..] == [];
    } else {
      assert (s + [op])[1..] == s[1..] + [op];
      OnDaySnoc(s[1..], op, day);
    }
  }

  // ---------------------------------------------------------------------------
  // Deposit and withdraw

  /** The statement after a deposit: one "credit" entry appended, whatever the amount. */
  function Deposited(s: seq<Operation>, description: string, amount: int, today: int): seq<Operation>
  {
    s + [Operation(description, amount, today, Credit)]
  }

  /** The statement after a withdrawal, or None when the balance is below the amount. */
  function Withdrawn(s: seq<Operation>, amount: int, today: int): Option<seq<Operation>>
  {
    if Balance(s) < amount then None
    else Some(s + [Operation(WithdrawDescription, amount, today, Debit)])
  }

  /** A deposit keeps every earlier entry, adds one credit entry and raises the balance by `amount`. */
  lemma DepositRaisesBalance(s: seq<Operation>, description: string, amount: int, today: int)
    ensures |Deposited(s, description, amount, today)| == |s| + 1
    ensures Deposited(s, description, amount, today)[..|s|] == s
    ensures Deposited(s, description, amount, today)[|s|] == Operation(description, amount, today, Credit)
    ensures Balance(Deposited(s, description, amount, today)) == Balance(s) + amount
  {
    var op := Operation(description, amount, today, Credit);
    assert (s + [op])[..|s|] == s;
    BalanceSnoc(s, op);
  }

  /**
   * A withdrawal is refused exactly when the balance is below the amount; when it
   * goes through it appends one "Withdraw" debit, and the new balance is the old
   * one minus the amount, never negative.
   */
  lemma WithdrawOutcome(s: seq<Operation>, amount: int, today: int)
    ensures Withdrawn(s, amount, today).None? <==> Balance(s) < amount
    ensures Withdrawn(s, amount, today).Some? ==>
      var t := Withdrawn(s, amount, today).value;
      |t| == |s| + 1 && t[..|s|] == s &&
      t[|s|] == Operation(WithdrawDescription, amount, today, Debit) &&
      Balance(t) == Balance(s) - amount && Balance(t) >= 0
  {
    var op := Operation(WithdrawDescription, amount, today, Debit);
    if !(Balance(s) < amount) {
      assert (s + [op])[..|s|] == s;
      BalanceSnoc(s, op);
    }
  }

  // ---------------------------------------------------------------------------
  // Sequences of requests on one statement

  /** A request that appends to one customer's statement. */
  datatype Request =
    | DepositRequest(description: string, amount: int, day: int)
    | WithdrawRequest(amount: int, day: int)

  /** The statement after one request; a refused withdrawal leaves it as it was. */
  function Step(s: seq<Operation>, req: Request): seq<Operation>
  {
    match req
    case DepositRequest(description, amount, day) => Deposited(s, description, amount, day)
    case WithdrawRequest(amount, day) =>
      match Withdrawn(s, amount, day)
      case None => s
      case Some(t) => t
  }

  /** The statement after the requests, one at a time, in order. */
  function Run(s: seq<Operation>, reqs: seq<Request>): seq<Operation>
    decreases |reqs|
  {
    if reqs == [] then s else Run(Step(s, reqs[0]), reqs[1..])
  }

  /** Every deposit in `reqs` has a non-negative amount. */
  predicate DepositsNonNegative(reqs: seq<Request>)
  {
    forall k | 0 <= k < |reqs| :: reqs[k].DepositRequest? ==> reqs[k].amount >= 0
  }

  /** The statement only grows: what was there stays, in place. */
  lemma {:induction false} RunAppendOnly(s: seq<Operation>, reqs: seq<Request>)
    ensures |s| <= |Run(s, reqs)| && Run(s, reqs)[..|s|] == s
    decreases |reqs|
  {
    if reqs != [] {
      var s' := Step(s, reqs[0]);
      assert |s| <= |s'| && s'[..|s|] == s by {
        match reqs[0]
        case DepositRequest(d, a, day) => DepositRaisesBalance(s, d, a, day);
        case WithdrawRequest(a, day) => WithdrawOutcome(s, a, day);
      }
      RunAppendOnly(s', reqs[1..]);
      var t := Run(s', reqs[1..]);
      assert t[..|s|] == t[..|s'|][..|s|];
    }
  }

  /**
   * Starting from a non-negative balance, no sequence of requests whose deposits
   * are non-negative brings the balance below zero.
   */
  lemma {:induction false} RunKeepsBalanceNonNegative(s: seq<Operation>, reqs: seq<Request>)
    requires Balance(s) >= 0
    requires DepositsNonNegative(reqs)
    ensures Balance(Run(s, reqs)) >= 0
    decreases |reqs|
  {
    if reqs != [] {
      var s' := Step(s, reqs[0]);
      assert Balance(s') >= 0 by {
        match reqs[0]
        case DepositRequest(d, a, day) => DepositRaisesBalance(s, d, a, day);
        case WithdrawRequest(a, day) => WithdrawOutcome(s, a, day);
      }
      assert DepositsNonNegative(reqs[1..]) by {
        forall k | 0 <= k < |reqs| - 1 ensures reqs[1..][k].DepositRequest? ==> reqs[1..][k].amount >= 0 {
          assert reqs[1..][k] == reqs[k + 1];
        }
      }
      RunKeepsBalanceNonNegative(s', reqs[1..]);
    }
  }

  /** Without the sign condition on deposits the balance can go negative: a deposit of -1 on an empty statement. */
  lemma NegativeDepositOverdraws()
    ensures Balance(Run([], [DepositRequest("refund", -1, 0)])) == -1
  {
    DepositRaisesBalance([], "refund", -1, 0);
  }
}
