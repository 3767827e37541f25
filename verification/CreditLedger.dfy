/** A user's stored credit balance and the append-only ledger it must agree with. */
module CreditLedger {
  import opened Prelude
  import opened RedemptionKeys

  type UserId = nat

  datatype SourceType = PromotionRedemption | MonthlyAllowance | OcrAnalysis

  datatype Source = Source(kind: SourceType, id: Id)

  datatype Action = Grant | Use

  datatype Entry = Entry(user: UserId, action: Action, amount: nat, key: Option<Key>, source: Option<Source>)

  datatype Balance = Balance(total: int, used: int, remaining: int)

  /** What the balance value checks when it is constructed. */
  predicate Consistent(b: Balance) {
    b.total >= 0 && b.used >= 0 && b.remaining >= 0 && b.total == b.used + b.remaining
  }

  /** A user without a stored row has an all-zero balance. */
  const EMPTY := Balance(0, 0, 0)

  function Applied(b: Balance, action: Action, amount: nat): Option<Balance> {
    match action
    case Grant => Some(Balance(b.total + amount, b.used, b.remaining + amount))
    case Use => if b.remaining < amount then None else Some(Balance(b.total, b.used + amount, b.remaining - amount))
  }

  /** The aggregate; `events` counts the grant events it has recorded. */
  class UserCredit {
    const id: UserId
    var balance: Balance
    var events: nat

    ghost predicate Valid()
      reads this
    {
      Consistent(balance)
    }

    constructor (id: UserId, stored: Balance)
      requires Consistent(stored)
      ensures Valid() && this.id == id && balance == stored && events == 0
    {
      this.id := id;
      balance := stored;
      events := 0;
    }

    /** Refused, with nothing changed, exactly when too little remains. */
    method Debit(amount: nat) returns (covered: bool)
      requires Valid() && amount >= 1
      modifies this`balance
      ensures Valid()
      ensures covered <==> old(balance).remaining >= amount
      ensures covered ==> balance == Applied(old(balance), Use, amount).value
      ensures !covered ==> balance == old(balance)
    {
      covered := balance.remaining >= amount;
      if covered {
        balance := Balance(balance.total, balance.used + amount, balance.remaining - amount);
      }
    }

    method Credit(amount: nat)
      requires Valid() && amount >= 1
      modifies this
      ensures Valid() && balance == Applied(old(balance), Grant, amount).value
      ensures events == old(events) + 1
    {
      balance := Balance(balance.total + amount, balance.used, balance.remaining + amount);
      events := events + 1;
    }
  }

  // ---- The ledger ----------------------------------------------------------------------------------

  predicate SameIdentity(a: Entry, b: Entry) {
    || (a.key.Some? && a.key == b.key)
    || (a.source.Some? && a.source == b.source && a.user == b.user && a.action == b.action)
  }

  /** What the two unique indexes of the ledger table guarantee. */
  ghost predicate UniqueIdentities(ledger: seq<Entry>) {
    forall i, j :: 0 <= i < j < |ledger| ==> !SameIdentity(ledger[i], ledger[j])
  }

  function Total(ledger: seq<Entry>, user: UserId, action: Action): nat {
    if ledger == [] then 0
    else
      var e := ledger[|ledger| - 1];
      Total(ledger[..|ledger| - 1], user, action) + if e.user == user && e.action == action then e.amount else 0
  }

  function Without(ledger: seq<Entry>, user: UserId): seq<Entry> {
    if ledger == [] then []
    else
      var e := ledger[|ledger| - 1];
      Without(ledger[..|ledger| - 1], user) + if e.user == user then [] else [e]
  }

  lemma TotalAppend(ledger: seq<Entry>, e: Entry, user: UserId, action: Action)
    ensures Total(ledger + [e], user, action) ==
            Total(ledger, user, action) + if e.user == user && e.action == action then e.amount else 0
  {
    assert (ledger + [e])[..|ledger|] == ledger;
  }

  lemma {:induction false} TotalWithout(ledger: seq<Entry>, user: UserId, other: UserId, action: Action)
    ensures Total(Without(ledger, user), other, action) == if other == user then 0 else Total(ledger, other, action)
  {
    if ledger != [] {
      var e := ledger[|ledger| - 1];
      var rest := Without(ledger[..|ledger| - 1], user);
      TotalWithout(ledger[..|ledger| - 1], user, other, action);
      if e.user != user {
        TotalAppend(rest, e, other, action);
      } else {
        assert rest + [] == rest;
      }
    }
  }

  lemma {:induction false} WithoutMembers(ledger: seq<Entry>, user: UserId)
    ensures forall e :: e in Without(ledger, user) <==> e in ledger && e.user != user
  {
    if ledger != [] {
      WithoutMembers(ledger[..|ledger| - 1], user);
      assert ledger == ledger[..|ledger| - 1] + [ledger[|ledger| - 1]];
    }
  }

  lemma {:induction false} WithoutKeepsIdentities(ledger: seq<Entry>, user: UserId)
    requires UniqueIdentities(ledger)
    ensures UniqueIdentities(Without(ledger, user))
  {
    if ledger != [] {
      var n := |ledger| - 1;
      var e := ledger[n];
      WithoutKeepsIdentities(ledger[..n], user);
      WithoutMembers(ledger[..n], user);
      forall x | x in ledger[..n] ensures !SameIdentity(x, e) {
        var k :| 0 <= k < n && ledger[..n][k] == x;
        assert ledger[k] == x;
      }
    }
  }

  /** The balance the ledger says the user should have. */
  function LedgerBalance(ledger: seq<Entry>, user: UserId): Balance {
    Balance(Total(ledger, user, Grant), Total(ledger, user, Use),
            Total(ledger, user, Grant) - Total(ledger, user, Use))
  }
}
