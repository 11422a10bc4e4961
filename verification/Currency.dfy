/** The currency below the pallet, reduced to what `reserve` promises: it either refuses and
    changes nothing or moves an amount of one account from free to reserved. */
module Currency {
  import opened Arithmetic
  import opened MapTotals

  type AccountId = nat

  datatype Account = Account(free: nat, reserved: nat)

  type Accounts = map<AccountId, Account>

  function AccountOf(accounts: Accounts, who: AccountId): Account {
    if who in accounts then accounts[who] else Account(0, 0)
  }

  function Whole(): Account -> nat { (a: Account) => a.free + a.reserved }

  function ReservedPart(): Account -> nat { (a: Account) => a.reserved }

  ghost function Issuance(accounts: Accounts): nat {
    Total(accounts, Whole())
  }

  /** `withdrawable` stands for the reasons a currency may have that this model does not
      see: locks, freezes and the existential deposit. */
  predicate CanReserve(accounts: Accounts, who: AccountId, amount: nat, withdrawable: bool) {
    amount == 0 || (withdrawable && amount <= AccountOf(accounts, who).free)
  }

  function Reserve(accounts: Accounts, who: AccountId, amount: nat): Accounts
    requires amount <= AccountOf(accounts, who).free
  {
    var a := AccountOf(accounts, who);
    if amount == 0 then accounts else accounts[who := Account(a.free - amount, a.reserved + amount)]
  }

  /** Reserving keeps the issuance, moves exactly the amount into the reserved total, and
      leaves every other account alone. */
  lemma ReserveMoves(accounts: Accounts, who: AccountId, amount: nat)
    requires amount <= AccountOf(accounts, who).free
    ensures var after := Reserve(accounts, who, amount);
      && Issuance(after) == Issuance(accounts)
      && Total(after, ReservedPart()) == Total(accounts, ReservedPart()) + amount
      && AccountOf(after, who).reserved == AccountOf(accounts, who).reserved + amount
      && forall other :: other != who ==> AccountOf(after, other) == AccountOf(accounts, other)
  {
    if amount > 0 {
      var a := AccountOf(accounts, who);
      var moved := Account(a.free - amount, a.reserved + amount);
      TotalPut(accounts, who, moved, Whole());
      TotalPut(accounts, who, moved, ReservedPart());
    }
  }

  lemma HoldingsWithinIssuance(accounts: Accounts, who: AccountId)
    ensures AccountOf(accounts, who).free + AccountOf(accounts, who).reserved <= Issuance(accounts)
    ensures Total(accounts, ReservedPart()) <= Issuance(accounts)
  {
    if who in accounts {
      TotalMember(accounts, who, Whole());
    }
    TotalMonotone(accounts, ReservedPart(), Whole());
  }

  /** The reserved total depends on nothing but what each account has reserved. */
  lemma {:induction false} ReservedTotalIsPointwise(a: Accounts, b: Accounts)
    requires forall who :: AccountOf(a, who).reserved == AccountOf(b, who).reserved
    ensures Total(a, ReservedPart()) == Total(b, ReservedPart())
    decreases |a|
  {
    if a == map[] {
      forall who | who in b ensures ReservedPart()(b[who]) == 0 {
        assert AccountOf(a, who).reserved == AccountOf(b, who).reserved;
      }
      TotalZero(b, ReservedPart());
    } else {
      var k := Pick(a);
      assert AccountOf(a, k).reserved == AccountOf(b, k).reserved;
      forall who ensures AccountOf(a - {k}, who).reserved == AccountOf(b - {k}, who).reserved {
        assert AccountOf(a, who).reserved == AccountOf(b, who).reserved;
      }
      ReservedTotalIsPointwise(a - {k}, b - {k});
      TotalRemove(a, k, ReservedPart());
      if k in b {
        TotalRemove(b, k, ReservedPart());
      } else {
        assert b - {k} == b;
      }
    }
  }

  class Balances {
    var accounts: Accounts

    constructor (genesis: Accounts)
      ensures accounts == genesis
    {
      accounts := genesis;
    }

    /** What other pallets do to this currency between calls, as an arbitrary rewrite. */
    method Rewrite(after: Accounts)
      modifies this
      ensures accounts == after
    {
      accounts := after;
    }

    /** The checked arithmetic of the implementation: an underflow of the free part or an
        overflow of the reserved part refuses. The overflow branch never decides when the
        issuance fits the balance type. */
    method TryReserve(who: AccountId, amount: nat, withdrawable: bool) returns (ok: bool)
      requires Issuance(accounts) <= MAX_U128
      modifies this
      ensures ok <==> CanReserve(old(accounts), who, amount, withdrawable)
      ensures ok <==> amount == 0 || (withdrawable && amount <= AccountOf(old(accounts), who).free)
      ensures amount <= AccountOf(old(accounts), who).free || !ok
      ensures accounts == if ok then Reserve(old(accounts), who, amount) else old(accounts)
    {
      if amount == 0 {
        return true;
      }
      var account := AccountOf(accounts, who);
      HoldingsWithinIssuance(accounts, who);
      if account.free < amount {
        return false;
      }
      if account.reserved + amount > MAX_U128 {
        return false;
      }
      if !withdrawable {
        return false;
      }
      accounts := accounts[who := Account(account.free - amount, account.reserved + amount)];
      ok := true;
    }
  }
}
