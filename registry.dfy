/**
 * The `customers` array of src/index.js as a sequence of values: the
 * lookup by CPF behind `verifyIfAccountExists` and `customers.some`, the
 * uniqueness invariants, and `Array.prototype.splice` as the delete
 * handler uses it.
 */
module Registry {
  import opened Wrappers
  import opened Statement

  /** One registered customer: the object the create handler pushes. */
  datatype Customer = Customer(cpf: string, name: string, id: string, statement: seq<Operation>)

  // ---------------------------------------------------------------------------
  // Lookup

  /** `customers.some(customer => customer.cpf === cpf)`. */
  predicate Registered(cs: seq<Customer>, cpf: string)
  {
    exists k | 0 <= k < |cs| :: cs[k].cpf == cpf
  }

  /**
   * `customers.find(customer => customer.cpf === cpf)`, as the position of the
   * customer found: the first one with that CPF, or None when there is none.
   */
  function FindIndex(cs: seq<Customer>, cpf: string): (r: Option<nat>)
    ensures r.Some? ==> r.value < |cs| && cs[r.value].cpf == cpf
    ensures r.Some? ==> forall k | 0 <= k < r.value :: cs[k].cpf != cpf
    ensures r.None? <==> !Registered(cs, cpf)
    decreases |cs|
  {
    if cs == [] then None
    else if cs[0].cpf == cpf then Some(0)
    else match FindIndex(cs[1..], cpf)
      case None => None
      case Some(k) => Some(k + 1)
  }

  // ---------------------------------------------------------------------------
  // Invariants

  /** No two customers share a CPF. */
  predicate CpfsDistinct(cs: seq<Customer>)
  {
    forall i, j | 0 <= i < j < |cs| :: cs[i].cpf != cs[j].cpf
  }

  /** No two customers share an id. */
  predicate IdsDistinct(cs: seq<Customer>)
  {
    forall i, j | 0 <= i < j < |cs| :: cs[i].id != cs[j].id
  }

  /** `id` is not taken by any customer (what a freshly generated uuid is). */
  predicate FreshId(cs: seq<Customer>, id: string)
  {
    forall k | 0 <= k < |cs| :: cs[k].id != id
  }

  /** With distinct CPFs the lookup resolves the one customer holding that CPF, wherever it is. */
  lemma FindIndexUnique(cs: seq<Customer>, k: nat)
    requires CpfsDistinct(cs)
    requires k < |cs|
    ensures FindIndex(cs, cs[k].cpf) == Some(k)
  {
    assert Registered(cs, cs[k].cpf);
  }

  /** Appending a customer with an unregistered CPF and a fresh id keeps both invariants. */
  lemma AppendKeepsDistinct(cs: seq<Customer>, c: Customer)
    requires CpfsDistinct(cs) && IdsDistinct(cs)
    requires !Registered(cs, c.cpf) && FreshId(cs, c.id)
    ensures CpfsDistinct(cs + [c]) && IdsDistinct(cs + [c])
    ensures FindIndex(cs + [c], c.cpf) == Some(|cs|)
  {
    var cs' := cs + [c];
    forall i, j | 0 <= i < j < |cs'| ensures cs'[i].cpf != cs'[j].cpf && cs'[i].id != cs'[j].id {
      if j == |cs| {
        assert cs'[i] == cs[i];
      }
    }
    FindIndexUnique(cs', |cs|);
  }

  /** Replacing one customer by one with the same CPF and id keeps both invariants. */
  lemma UpdateKeepsDistinct(cs: seq<Customer>, k: nat, c: Customer)
    requires CpfsDistinct(cs) && IdsDistinct(cs)
    requires k < |cs| && c.cpf == cs[k].cpf && c.id == cs[k].id
    ensures CpfsDistinct(cs[k := c]) && IdsDistinct(cs[k := c])
  {
  }

  // ---------------------------------------------------------------------------
  // Array.prototype.splice

  function Min(a: int, b: int): int { if a <= b then a else b }
  function Max(a: int, b: int): int { if a <= b then b else a }

  /**
   * `s.splice(start, deleteCount)` with nothing to insert, for an integral
   * start: the resulting array. A negative start counts from the end;
   * both the start and the count are clamped to the array.
   */
  function Splice<T>(s: seq<T>, start: int, deleteCount: int): (r: seq<T>)
    ensures |r| <= |s|
    ensures 0 <= start < |s| && deleteCount == 1 ==> r == s[..start] + s[start + 1..]
  {
    var from := if start < 0 then Max(|s| + start, 0) else Min(start, |s|);
    var n := Min(Max(deleteCount, 0), |s| - from);
    s[..from] + s[from + n..]
  }

  /**
   * The start index `splice` sees when handed a customer object: the object
   * converts to the number NaN, and ToIntegerOrInfinity(NaN) is 0.
   */
  const ObjectAsStart: int := 0

  /** Removing one element keeps both invariants. */
  lemma RemoveKeepsDistinct(cs: seq<Customer>, k: nat)
    requires CpfsDistinct(cs) && IdsDistinct(cs)
    requires k < |cs|
    ensures CpfsDistinct(Splice(cs, k, 1)) && IdsDistinct(Splice(cs, k, 1))
  {
    var r := Splice(cs, k, 1);
    forall i, j | 0 <= i < j < |r| ensures r[i].cpf != r[j].cpf && r[i].id != r[j].id {
      var i' := if i < k then i else i + 1;
      var j' := if j < k then j else j + 1;
      assert r[i] == cs[i'] && r[j] == cs[j'];
    }
  }

  /**
   * What `customers.splice(customer, 1)` does to a ledger with distinct CPFs in
   * which `cpf` was resolved at position `k`: element 0 goes, and the resolved
   * customer is still registered afterwards exactly when it was not element 0.
   */
  lemma {:induction false} SpliceObjectRemovesFirst(cs: seq<Customer>, cpf: string, k: nat)
    requires CpfsDistinct(cs)
    requires FindIndex(cs, cpf) == Some(k)
    ensures Splice(cs, ObjectAsStart, 1) == cs[1..]
    ensures Registered(Splice(cs, ObjectAsStart, 1), cpf) <==> k != 0
  {
    var r := Splice(cs, ObjectAsStart, 1);
    assert r == cs[1..];
    if k != 0 {
      assert r[k - 1] == cs[k];
    } else {
      forall j | 0 <= j < |r| ensures r[j].cpf != cpf {
        assert r[j] == cs[j + 1];
      }
    }
  }

  /** A two-customer ledger on which deleting the second customer removes the first one instead. */
  lemma SpliceObjectCounterexample()
    ensures
      var alice := Customer("111", "Alice", "a", []);
      var bob := Customer("222", "Bob", "b", []);
      FindIndex([alice, bob], "222") == Some(1) &&
      Splice([alice, bob], ObjectAsStart, 1) == [bob]
  {
    var alice := Customer("111", "Alice", "a", []);
    var bob := Customer("222", "Bob", "b", []);
    assert [alice, bob][1..] == [bob];
  }

  /**
   * Removing the resolved customer by its own position: that CPF is no longer
   * registered, and every other customer stays, in order.
   */
  lemma {:induction false} SpliceResolvedRemovesIt(cs: seq<Customer>, cpf: string, k: nat)
    requires CpfsDistinct(cs)
    requires FindIndex(cs, cpf) == Some(k)
    ensures |Splice(cs, k, 1)| == |cs| - 1
    ensures !Registered(Splice(cs, k, 1), cpf)
    ensures Splice(cs, k, 1) == cs[..k] + cs[k + 1..]
    ensures forall j | 0 <= j < |cs| && j != k :: cs[j] in Splice(cs, k, 1)
  {
    var r := Splice(cs, k, 1);
    assert r == cs[..k] + cs[k + 1..];
    forall j | 0 <= j < |r| ensures r[j].cpf != cpf {
      var j' := if j < k then j else j + 1;
      assert r[j] == cs[j'];
    }
    forall j | 0 <= j < |cs| && j != k ensures cs[j] in r {
      if j < k { assert r[j] == cs[j]; } else { assert r[j - 1] == cs[j]; }
    }
  }
}
