/** Token balances of every holder, the executor's standing approvals, and conservation. */
module Ledger {
  import opened Arithmetic
  import opened Options

  const TWO_160: int := 0x1_0000_0000_0000_0000_0000_0000_0000_0000_0000_0000

  type Address = x: int | 0 <= x < TWO_160

  /** `balances` is keyed by (token, holder); `allowances`, granted by the executor, by (token, spender).
      A missing key reads as zero. */
  datatype Ledger = Ledger(balances: map<(Address, Address), nat>, allowances: map<(Address, Address), nat>)

  function Balance(l: Ledger, token: Address, who: Address): nat {
    if (token, who) in l.balances then l.balances[(token, who)] else 0
  }

  function Allowance(l: Ledger, token: Address, spender: Address): nat {
    if (token, spender) in l.allowances then l.allowances[(token, spender)] else 0
  }

  function Credit(l: Ledger, token: Address, who: Address, amount: nat): Ledger {
    l.(balances := l.balances[(token, who) := Balance(l, token, who) + amount])
  }

  function Debit(l: Ledger, token: Address, who: Address, amount: nat): Ledger
    requires amount <= Balance(l, token, who)
  {
    l.(balances := l.balances[(token, who) := Balance(l, token, who) - amount])
  }

  /** A standard ERC-20 transfer: it fails on a short balance and otherwise moves the exact amount. */
  function Transfer(l: Ledger, token: Address, from: Address, to: Address, amount: nat): Option<Ledger> {
    if Balance(l, token, from) < amount then None
    else Some(Credit(Debit(l, token, from, amount), token, to, amount))
  }

  function Approve(l: Ledger, token: Address, spender: Address, amount: nat): Ledger {
    l.(allowances := l.allowances[(token, spender) := amount])
  }

  /** What `who` holds moves by exactly the amount, at the two ends of the transfer and nowhere else. */
  lemma TransferBalance(l: Ledger, token: Address, from: Address, to: Address, amount: nat, t: Address, who: Address)
    requires Transfer(l, token, from, to, amount).Some?
    ensures var l' := Transfer(l, token, from, to, amount).value;
            && l'.allowances == l.allowances
            && Balance(l', t, who) == Balance(l, t, who)
                 - (if t == token && who == from then amount else 0)
                 + (if t == token && who == to then amount else 0)
  {}

  /** The token held by all holders with an address below `n`. */
  ghost function Held(l: Ledger, token: Address, n: nat): nat
    requires n <= TWO_160
  {
    if n == 0 then 0 else Held(l, token, n - 1) + Balance(l, token, n - 1)
  }

  ghost function Supply(l: Ledger, token: Address): nat { Held(l, token, TWO_160) }

  lemma {:induction false} HeldAfterTransfer(
    l: Ledger, token: Address, from: Address, to: Address, amount: nat, t: Address, n: nat)
    requires n <= TWO_160
    requires Transfer(l, token, from, to, amount).Some?
    ensures Held(Transfer(l, token, from, to, amount).value, t, n) == Held(l, t, n)
              - (if t == token && from < n then amount else 0)
              + (if t == token && to < n then amount else 0)
  {
    hide Transfer;
    if n > 0 {
      HeldAfterTransfer(l, token, from, to, amount, t, n - 1);
      TransferBalance(l, token, from, to, amount, t, n - 1);
    }
  }

  /** No transfer creates or destroys any token. */
  lemma TransferConserves(l: Ledger, token: Address, from: Address, to: Address, amount: nat, t: Address)
    requires Transfer(l, token, from, to, amount).Some?
    ensures Supply(Transfer(l, token, from, to, amount).value, t) == Supply(l, t)
  {
    hide Held;
    HeldAfterTransfer(l, token, from, to, amount, t, TWO_160);
  }

  lemma {:induction false} HeldIgnoresAllowances(l: Ledger, m: Ledger, t: Address, n: nat)
    requires n <= TWO_160 && l.balances == m.balances
    ensures Held(l, t, n) == Held(m, t, n)
  {
    if n > 0 { HeldIgnoresAllowances(l, m, t, n - 1); }
  }

  /** Only what someone holds is counted: a token nobody holds has no supply. */
  lemma {:induction false} NobodyHolds(l: Ledger, t: Address, n: nat)
    requires n <= TWO_160 && forall who: Address :: (t, who) !in l.balances
    ensures Held(l, t, n) == 0
  {
    if n > 0 { NobodyHolds(l, t, n - 1); }
  }
}
