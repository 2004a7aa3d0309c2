/** The wallet ledger: how a transaction's creation and deletion move its wallet's
    materialized balance, and when that balance agrees with the balance replayed
    from the transaction log. */
module Balance {
  import opened Common
  import opened Seqs
  import opened Records

  /** The balance after recording a transaction: up by the amount for an
      income, down for an expense; taking it back unfloored restores it. */
  function Apply(balance: int, kind: TxType, amount: int): (r: int)
    ensures Unclamped(r, kind, amount) == balance
    ensures amount > 0 ==> (r > balance <==> kind == Income)
  {
    if kind == Income then balance + amount else balance - amount
  }

  /** The balance after taking a transaction back, before the floor at 0. */
  function Unclamped(balance: int, kind: TxType, amount: int): int {
    if kind == Income then balance - amount else balance + amount
  }

  /** The balance after deleting a transaction: the reversal, floored at 0. */
  function Reverse(balance: int, kind: TxType, amount: int): (r: int)
    ensures r >= 0
    ensures r >= Unclamped(balance, kind, amount)
    ensures Unclamped(balance, kind, amount) >= 0 ==> r == Unclamped(balance, kind, amount)
    ensures Unclamped(balance, kind, amount) < 0 ==> r == 0
  {
    var raw := Unclamped(balance, kind, amount);
    if raw < 0 then 0 else raw
  }

  /** A transaction that passed the funds check leaves the balance non-negative,
      and a spend of the whole balance leaves exactly 0. */
  lemma ApplyKeepsFloor(balance: int, kind: TxType, amount: int)
    requires balance >= 0 && amount > 0
    requires kind == Expense ==> amount <= balance
    ensures Apply(balance, kind, amount) >= 0
    ensures kind == Expense && amount == balance ==> Apply(balance, kind, amount) == 0
  {
  }

  /** Deleting a transaction right after creating it restores the balance exactly. */
  lemma ReverseUndoesApply(balance: int, kind: TxType, amount: int)
    requires balance >= 0 && amount > 0
    requires kind == Expense ==> amount <= balance
    ensures Reverse(Apply(balance, kind, amount), kind, amount) == balance
  {
  }

  /** Income minus expense over the transactions of wallet `id` of `owner`. */
  function NetOf(txs: seq<Tx>, id: WalletId, owner: UserId): int {
    NetIf(txs, (t: Tx) => t.walletId == id && t.owner == owner)
  }

  /** The balance of `w` replayed from the log: its initial balance plus the
      income minus the expense of its transactions. */
  function Replayed(w: Wallet, txs: seq<Tx>): int {
    w.initialBalance + NetOf(txs, w.id, w.owner)
  }

  lemma NetOfAppend(txs: seq<Tx>, t: Tx, id: WalletId, owner: UserId)
    ensures NetOf(txs + [t], id, owner)
         == NetOf(txs, id, owner) + (if t.walletId == id && t.owner == owner then Signed(t) else 0)
  {
    NetIfAppend(txs, t, (x: Tx) => x.walletId == id && x.owner == owner);
  }

  lemma NetOfRemove(txs: seq<Tx>, k: nat, id: WalletId, owner: UserId)
    requires k < |txs|
    ensures NetOf(txs[..k] + txs[k + 1..], id, owner)
         == NetOf(txs, id, owner) - (if txs[k].walletId == id && txs[k].owner == owner then Signed(txs[k]) else 0)
  {
    NetIfRemove(txs, k, (x: Tx) => x.walletId == id && x.owner == owner);
  }

  lemma NetOfNone(txs: seq<Tx>, id: WalletId, owner: UserId)
    requires forall k :: 0 <= k < |txs| ==> txs[k].walletId != id
    ensures NetOf(txs, id, owner) == 0
  {
    NetIfNone(txs, (x: Tx) => x.walletId == id && x.owner == owner);
  }

  /** A filter that keeps every transaction of the wallet leaves its net unchanged. */
  lemma NetOfFilterKeep(txs: seq<Tx>, f: Tx -> bool, id: WalletId, owner: UserId)
    requires forall k :: 0 <= k < |txs| && txs[k].walletId == id && txs[k].owner == owner ==> f(txs[k])
    ensures NetOf(Filter(txs, f), id, owner) == NetOf(txs, id, owner)
  {
    var c := (x: Tx) => x.walletId == id && x.owner == owner;
    NetIfFilter(txs, f, c);
    NetIfCong(txs, x => f(x) && c(x), c);
  }

  /** The materialized balance agrees with the replayed one. */
  ghost predicate Balanced(w: Wallet, txs: seq<Tx>) {
    w.balance == Replayed(w, txs)
  }

  ghost predicate AllBalanced(ws: seq<Wallet>, txs: seq<Tx>) {
    forall i :: 0 <= i < |ws| ==> Balanced(ws[i], txs)
  }

  ghost predicate UniqueWalletIds(ws: seq<Wallet>) {
    forall i, j :: 0 <= i < j < |ws| ==> ws[i].id != ws[j].id
  }

  /** Appending a transaction of wallet `i` and applying it to that wallet's
      balance keeps every wallet balanced. */
  lemma CreateKeepsBalanced(ws: seq<Wallet>, txs: seq<Tx>, i: nat, t: Tx)
    requires UniqueWalletIds(ws) && i < |ws| && Of(t, ws[i])
    requires AllBalanced(ws, txs)
    ensures AllBalanced(ws[i := ws[i].(balance := Apply(ws[i].balance, t.kind, t.amount))], txs + [t])
  {
    var ws' := ws[i := ws[i].(balance := Apply(ws[i].balance, t.kind, t.amount))];
    forall j | 0 <= j < |ws'|
      ensures Balanced(ws'[j], txs + [t])
    {
      NetOfAppend(txs, t, ws[j].id, ws[j].owner);
      assert j != i ==> ws[j].id != ws[i].id;
    }
  }

  /** Removing transaction `k` and reversing it on its wallet `i` keeps every
      wallet balanced, provided the reversal was not clamped. */
  lemma DeleteKeepsBalanced(ws: seq<Wallet>, txs: seq<Tx>, k: nat, i: nat)
    requires UniqueWalletIds(ws) && k < |txs| && i < |ws| && Of(txs[k], ws[i])
    requires AllBalanced(ws, txs)
    requires Unclamped(ws[i].balance, txs[k].kind, txs[k].amount) >= 0
    ensures AllBalanced(ws[i := ws[i].(balance := Reverse(ws[i].balance, txs[k].kind, txs[k].amount))],
                        txs[..k] + txs[k + 1..])
  {
    var ws' := ws[i := ws[i].(balance := Reverse(ws[i].balance, txs[k].kind, txs[k].amount))];
    forall j | 0 <= j < |ws'|
      ensures Balanced(ws'[j], txs[..k] + txs[k + 1..])
    {
      NetOfRemove(txs, k, ws[j].id, ws[j].owner);
      assert j != i ==> ws[j].id != ws[i].id;
    }
  }

  /** Removing a transaction whose wallet is gone changes no wallet and keeps
      every wallet balanced. */
  lemma DeleteOrphanKeepsBalanced(ws: seq<Wallet>, txs: seq<Tx>, k: nat)
    requires k < |txs| && forall i :: 0 <= i < |ws| ==> !Of(txs[k], ws[i])
    requires AllBalanced(ws, txs)
    ensures AllBalanced(ws, txs[..k] + txs[k + 1..])
  {
    forall j | 0 <= j < |ws|
      ensures Balanced(ws[j], txs[..k] + txs[k + 1..])
    {
      NetOfRemove(txs, k, ws[j].id, ws[j].owner);
    }
  }

  /** A clamped reversal always breaks the agreement: the wallet shows 0 while
      its replayed balance is the negative unclamped value. */
  lemma ClampBreaksBalance(w: Wallet, txs: seq<Tx>, k: nat)
    requires k < |txs| && Of(txs[k], w) && Balanced(w, txs)
    requires Unclamped(w.balance, txs[k].kind, txs[k].amount) < 0
    ensures Reverse(w.balance, txs[k].kind, txs[k].amount) == 0
    ensures !Balanced(w.(balance := Reverse(w.balance, txs[k].kind, txs[k].amount)), txs[..k] + txs[k + 1..])
    ensures Replayed(w, txs[..k] + txs[k + 1..]) == Unclamped(w.balance, txs[k].kind, txs[k].amount)
  {
    NetOfRemove(txs, k, w.id, w.owner);
  }

  /** The figures of the clamp from a balanced wallet: a wallet opened at 0
      receives 500, spends 500, and then the income is deleted. The same
      scenario through the store's requests is `Ledger.FloorThroughRequests`. */
  lemma ClampExample()
    ensures var w := Wallet(0, 0, "cash", "001", 0, 0, DefaultCurrency, 0);
      var income := Tx(0, 0, 0, Income, 500, "salary", "", 1);
      var expense := Tx(1, 0, 0, Expense, 500, "rent", "", 2);
      && Apply(Apply(0, Income, 500), Expense, 500) == 0
      && Balanced(w, [income, expense])
      && Reverse(0, Income, 500) == 0
      && Replayed(w, [expense]) == -500
  {
    var w := Wallet(0, 0, "cash", "001", 0, 0, DefaultCurrency, 0);
    var income := Tx(0, 0, 0, Income, 500, "salary", "", 1);
    var expense := Tx(1, 0, 0, Expense, 500, "rent", "", 2);
    NetOfAppend([], income, 0, 0);
    assert [income, expense] == [income] + [expense];
    NetOfAppend([income], expense, 0, 0);
    assert [expense] == [] + [expense];
    NetOfAppend([], expense, 0, 0);
  }

  /** A new wallet, whose id no transaction references, starts balanced. */
  lemma NewWalletBalanced(ws: seq<Wallet>, txs: seq<Tx>, w: Wallet)
    requires AllBalanced(ws, txs) && w.balance == w.initialBalance
    requires forall k :: 0 <= k < |txs| ==> txs[k].walletId != w.id
    ensures AllBalanced(ws + [w], txs)
  {
    NetOfNone(txs, w.id, w.owner);
  }

  /** Renaming a wallet keeps every wallet balanced. */
  lemma UpdateKeepsBalanced(ws: seq<Wallet>, txs: seq<Tx>, i: nat, w: Wallet)
    requires i < |ws| && AllBalanced(ws, txs)
    requires w.id == ws[i].id && w.owner == ws[i].owner
    requires w.initialBalance == ws[i].initialBalance && w.balance == ws[i].balance
    ensures AllBalanced(ws[i := w], txs)
  {
  }

  /** The transactions left once wallet `w` and its transactions are deleted. */
  function Cascade(txs: seq<Tx>, w: Wallet): seq<Tx> {
    Filter(txs, (t: Tx) => !Of(t, w))
  }

  /** The cascade removes exactly the transactions of wallet `id` of `owner`
      and keeps the rest. */
  lemma CascadeMembers(txs: seq<Tx>, w: Wallet, id: WalletId, owner: UserId)
    requires w.id == id && w.owner == owner
    ensures var r := Cascade(txs, w);
      && (forall k :: 0 <= k < |r| ==> !(r[k].walletId == id && r[k].owner == owner))
      && (forall k :: 0 <= k < |r| ==> r[k] in txs)
      && (forall t :: t in txs && !(t.walletId == id && t.owner == owner) ==> t in r)
  {
    forall t | t in txs && !(t.walletId == id && t.owner == owner)
      ensures t in Cascade(txs, w)
    {
      FilterMember(txs, (t: Tx) => !Of(t, w), t);
    }
  }

  /** Deleting wallet `i` together with its transactions keeps every other
      wallet balanced. */
  lemma CascadeKeepsBalanced(ws: seq<Wallet>, txs: seq<Tx>, i: nat)
    requires UniqueWalletIds(ws) && i < |ws| && AllBalanced(ws, txs)
    ensures AllBalanced(ws[..i] + ws[i + 1..], Cascade(txs, ws[i]))
  {
    var ws' := ws[..i] + ws[i + 1..];
    var keep := (t: Tx) => !Of(t, ws[i]);
    forall j | 0 <= j < |ws'|
      ensures Balanced(ws'[j], Filter(txs, keep))
    {
      var w := ws'[j];
      var jj := if j < i then j else j + 1;
      assert w == ws[jj] && jj != i;
      assert w.id != ws[i].id;
      NetOfFilterKeep(txs, keep, w.id, w.owner);
    }
  }
}
