/**
 The double-entry ledger: an append-only table of debit and credit legs, and the sums the services
 derive from it. Amounts are whole ticks of 0.0001 (`NUMERIC(19,4)`).
 */
module Ledger {
  import opened Wrappers

  /** Accounts are ordered as their UUIDs are ordered as strings; the system account's UUID is all zeros. */
  type AccountId = nat

  const SYSTEM_ACCOUNT: AccountId := 0

  datatype Direction = Debit | Credit

  datatype EntryType = TransferEntry | SeedEntry | DepositEntry | WithdrawalEntry | ReversalEntry

  /** The one unique column `ledger_entries.idempotency_key` holds seed keys and `reversal:{withdrawal}` keys. */
  datatype LedgerKey = SeedKey(key: string) | ReversalKey(withdrawal: string)

  datatype Leg = Leg(
    txn: nat,
    account: AccountId,
    direction: Direction,
    amount: int,
    entry: EntryType,
    reference: Option<nat>,
    key: Option<LedgerKey>)

  function Signed(leg: Leg): int {
    if leg.direction.Credit? then leg.amount else -leg.amount
  }

  function Sum(legs: seq<Leg>): int {
    if legs == [] then 0 else Sum(legs[..|legs| - 1]) + Signed(legs[|legs| - 1])
  }

  /** `SELECT ... FROM ledger_entries WHERE p`. */
  function Filter(legs: seq<Leg>, p: Leg -> bool): seq<Leg> {
    if legs == [] then []
    else
      var rest := Filter(legs[..|legs| - 1], p);
      if p(legs[|legs| - 1]) then rest + [legs[|legs| - 1]] else rest
  }

  function OfAccount(a: AccountId): Leg -> bool { (leg: Leg) => leg.account == a }

  function InTxn(t: nat): Leg -> bool { (leg: Leg) => leg.txn == t }

  function ByReference(r: nat): Leg -> bool { (leg: Leg) => leg.reference == Some(r) }

  function ByKey(k: LedgerKey): Leg -> bool { (leg: Leg) => leg.key == Some(k) }

  /** `get_balance`: the signed sum of the account's legs. */
  function Balance(legs: seq<Leg>, a: AccountId): int {
    Sum(Filter(legs, OfAccount(a)))
  }

  /** The two legs every posting writes; an idempotency key, when there is one, sits on the credit leg. */
  function Pair(txn: nat, debit: AccountId, credit: AccountId, amount: int, entry: EntryType,
                reference: Option<nat>, key: Option<LedgerKey>): seq<Leg> {
    [Leg(txn, debit, Debit, amount, entry, reference, None),
     Leg(txn, credit, Credit, amount, entry, reference, key)]
  }

  ghost predicate IsPair(legs: seq<Leg>, debit: AccountId, credit: AccountId, amount: int, entry: EntryType,
                         reference: Option<nat>, key: Option<LedgerKey>) {
    |legs| == 2 && legs == Pair(legs[0].txn, debit, credit, amount, entry, reference, key)
  }

  lemma {:induction false} SumAppend(xs: seq<Leg>, ys: seq<Leg>)
    ensures Sum(xs + ys) == Sum(xs) + Sum(ys)
  {
    if ys == [] {
      assert xs + ys == xs;
    } else {
      assert (xs + ys)[..|xs + ys| - 1] == xs + ys[..|ys| - 1];
      SumAppend(xs, ys[..|ys| - 1]);
    }
  }

  lemma {:induction false} FilterAppend(xs: seq<Leg>, ys: seq<Leg>, p: Leg -> bool)
    ensures Filter(xs + ys, p) == Filter(xs, p) + Filter(ys, p)
  {
    if ys == [] {
      assert xs + ys == xs;
    } else {
      assert (xs + ys)[..|xs + ys| - 1] == xs + ys[..|ys| - 1];
      FilterAppend(xs, ys[..|ys| - 1], p);
    }
  }

  lemma {:induction false} FilterMember(xs: seq<Leg>, p: Leg -> bool, leg: Leg)
    ensures leg in Filter(xs, p) <==> leg in xs && p(leg)
  {
    if xs != [] {
      assert xs == xs[..|xs| - 1] + [xs[|xs| - 1]];
      FilterMember(xs[..|xs| - 1], p, leg);
    }
  }

  lemma FilterEmpty(xs: seq<Leg>, p: Leg -> bool)
    requires forall leg :: leg in xs ==> !p(leg)
    ensures Filter(xs, p) == []
  {
    if Filter(xs, p) != [] {
      FilterMember(xs, p, Filter(xs, p)[0]);
    }
  }

  lemma FilterPair(d: Leg, c: Leg, p: Leg -> bool)
    ensures Filter([d, c], p) == (if p(d) then [d] else []) + (if p(c) then [c] else [])
  {
    assert [d, c][..1] == [d];
    assert [d][..0] == [];
    assert Filter([d], p) == if p(d) then [d] else [];
  }

  /** What appending a pair does to any filtered view of the ledger. */
  lemma FilterPosting(legs: seq<Leg>, txn: nat, debit: AccountId, credit: AccountId, amount: int, entry: EntryType,
                      reference: Option<nat>, key: Option<LedgerKey>, p: Leg -> bool)
    ensures
      var added := Pair(txn, debit, credit, amount, entry, reference, key);
      Filter(legs + added, p)
      == Filter(legs, p) + (if p(added[0]) then [added[0]] else []) + (if p(added[1]) then [added[1]] else [])
  {
    var added := Pair(txn, debit, credit, amount, entry, reference, key);
    FilterAppend(legs, added, p);
    FilterPair(added[0], added[1], p);
  }

  lemma SumSmall(d: Leg, c: Leg)
    ensures Sum([d]) == Signed(d) && Sum([d, c]) == Signed(d) + Signed(c) && Sum([]) == 0
  {
    assert [d, c][..1] == [d];
    assert [d][..0] == [];
  }

  lemma PairIsSilent(legs: seq<Leg>, txn: nat, debit: AccountId, credit: AccountId, amount: int,
                     entry: EntryType, reference: Option<nat>, key: Option<LedgerKey>, t: nat)
    ensures
      var added := Pair(txn, debit, credit, amount, entry, reference, key);
      Sum(legs + added) == Sum(legs) && Sum(Filter(legs + added, InTxn(t))) == Sum(Filter(legs, InTxn(t)))
  {
    var added := Pair(txn, debit, credit, amount, entry, reference, key);
    SumAppend(legs, added);
    SumSmall(added[0], added[1]);
    FilterAppend(legs, added, InTxn(t));
    FilterPair(added[0], added[1], InTxn(t));
    SumAppend(Filter(legs, InTxn(t)), Filter(added, InTxn(t)));
    hide Sum, Filter;
  }

  lemma PairMovesBalance(legs: seq<Leg>, txn: nat, debit: AccountId, credit: AccountId, amount: int,
                         entry: EntryType, reference: Option<nat>, key: Option<LedgerKey>, a: AccountId)
    ensures
      Balance(legs + Pair(txn, debit, credit, amount, entry, reference, key), a)
      == Balance(legs, a) - (if a == debit then amount else 0) + (if a == credit then amount else 0)
  {
    var added := Pair(txn, debit, credit, amount, entry, reference, key);
    FilterAppend(legs, added, OfAccount(a));
    FilterPair(added[0], added[1], OfAccount(a));
    SumAppend(Filter(legs, OfAccount(a)), Filter(added, OfAccount(a)));
    SumSmall(added[0], added[1]);
    SumSmall(added[1], added[1]);
    hide Sum, Filter;
  }

  /** A posting moves its amount from the debited to the credited account, changes no other balance,
      and leaves every signed total over transactions unchanged. */
  lemma PostingMovesMoney(legs: seq<Leg>, txn: nat, debit: AccountId, credit: AccountId, amount: int,
                          entry: EntryType, reference: Option<nat>, key: Option<LedgerKey>)
    ensures
      var legs' := legs + Pair(txn, debit, credit, amount, entry, reference, key);
      && Sum(legs') == Sum(legs)
      && (forall t :: Sum(Filter(legs', InTxn(t))) == Sum(Filter(legs, InTxn(t))))
      && (forall a :: Balance(legs', a)
                      == Balance(legs, a) - (if a == debit then amount else 0) + (if a == credit then amount else 0))
  {
    hide Sum, Filter, Balance, Pair;
    var legs' := legs + Pair(txn, debit, credit, amount, entry, reference, key);
    PairIsSilent(legs, txn, debit, credit, amount, entry, reference, key, txn);
    forall t ensures Sum(Filter(legs', InTxn(t))) == Sum(Filter(legs, InTxn(t))) {
      PairIsSilent(legs, txn, debit, credit, amount, entry, reference, key, t);
    }
    forall a ensures Balance(legs', a)
                     == Balance(legs, a) - (if a == debit then amount else 0) + (if a == credit then amount else 0)
    {
      PairMovesBalance(legs, txn, debit, credit, amount, entry, reference, key, a);
    }
  }
}
