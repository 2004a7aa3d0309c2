/** The two stored documents of the ledger, a wallet and a transaction, and the
    conditional sums of transaction amounts that every balance figure is built from. */
module Records {
  import opened Common
  import opened Seqs

  type UserId = nat
  type WalletId = nat
  type TxId = nat

  /** The transaction type, restricted by the schema to two values. */
  datatype TxType = Income | Expense

  /** The stored name of a type. */
  function TypeName(k: TxType): string {
    match k
    case Income => "income"
    case Expense => "expense"
  }

  /** The schema's enum check on a request's type string. */
  function ParseType(s: string): (r: Option<TxType>)
    ensures r.Some? <==> s == "income" || s == "expense"
    ensures r.Some? ==> TypeName(r.value) == s
  {
    if s == "income" then Some(Income)
    else if s == "expense" then Some(Expense)
    else None
  }

  lemma ParseTypeName(k: TxType)
    ensures ParseType(TypeName(k)) == Some(k)
  {
  }

  /** The currency a wallet gets when the request names none. */
  const DefaultCurrency: string := "VND"

  /** A wallet document. The schema bounds both balances below by 0. */
  datatype Wallet = Wallet(
    id: WalletId,
    owner: UserId,
    name: string,
    accountNumber: string,
    initialBalance: int,
    balance: int,
    currency: string,
    createdAt: int)

  ghost predicate WalletInBounds(w: Wallet) {
    w.initialBalance >= 0 && w.balance >= 0
  }

  /** A transaction document. The amount is always stored positive; its sign
      is given by `kind`. An absent note is the empty string. */
  datatype Tx = Tx(
    id: TxId,
    owner: UserId,
    walletId: WalletId,
    kind: TxType,
    amount: int,
    category: string,
    note: string,
    occurredAt: int)

  /** The effect of a transaction on its wallet's balance. */
  function Signed(t: Tx): int {
    if t.kind == Income then t.amount else -t.amount
  }

  /** Whether a transaction belongs to wallet `w` (same wallet, same owner). */
  predicate Of(t: Tx, w: Wallet) {
    t.walletId == w.id && t.owner == w.owner
  }

  /** The sum of the amounts of the transactions satisfying `c`: the meaning of
      `$sum: {$cond: [c, '$amount', 0]}` over a stage's input. */
  function SumIf(s: seq<Tx>, c: Tx -> bool): int
    decreases |s|
  {
    if s == [] then 0
    else SumIf(s[..|s| - 1], c) + (if c(s[|s| - 1]) then s[|s| - 1].amount else 0)
  }

  /** Income minus expense over the transactions satisfying `c`. */
  function NetIf(s: seq<Tx>, c: Tx -> bool): int {
    SumIf(s, t => c(t) && t.kind == Income) - SumIf(s, t => c(t) && t.kind == Expense)
  }

  lemma SumIfAppend(s: seq<Tx>, t: Tx, c: Tx -> bool)
    ensures SumIf(s + [t], c) == SumIf(s, c) + (if c(t) then t.amount else 0)
  {
    assert (s + [t])[..|s + [t]| - 1] == s;
  }

  lemma NetIfAppend(s: seq<Tx>, t: Tx, c: Tx -> bool)
    ensures NetIf(s + [t], c) == NetIf(s, c) + (if c(t) then Signed(t) else 0)
  {
    SumIfAppend(s, t, x => c(x) && x.kind == Income);
    SumIfAppend(s, t, x => c(x) && x.kind == Expense);
  }

  lemma {:induction false} SumIfConcat(a: seq<Tx>, b: seq<Tx>, c: Tx -> bool)
    ensures SumIf(a + b, c) == SumIf(a, c) + SumIf(b, c)
    decreases |b|
  {
    if b == [] {
      assert a + b == a;
    } else {
      var init := b[..|b| - 1];
      var last := b[|b| - 1];
      assert b == init + [last];
      assert a + b == (a + init) + [last];
      SumIfAppend(a + init, last, c);
      SumIfAppend(init, last, c);
      SumIfConcat(a, init, c);
    }
  }

  lemma NetIfConcat(a: seq<Tx>, b: seq<Tx>, c: Tx -> bool)
    ensures NetIf(a + b, c) == NetIf(a, c) + NetIf(b, c)
  {
    SumIfConcat(a, b, x => c(x) && x.kind == Income);
    SumIfConcat(a, b, x => c(x) && x.kind == Expense);
  }

  /** Removing the transaction at index `k` takes its effect out of every sum it was in. */
  lemma NetIfRemove(s: seq<Tx>, k: nat, c: Tx -> bool)
    requires k < |s|
    ensures NetIf(s[..k] + s[k + 1..], c) == NetIf(s, c) - (if c(s[k]) then Signed(s[k]) else 0)
  {
    assert s == (s[..k] + [s[k]]) + s[k + 1..];
    NetIfConcat(s[..k] + [s[k]], s[k + 1..], c);
    NetIfAppend(s[..k], s[k], c);
    NetIfConcat(s[..k], s[k + 1..], c);
  }

  /** Sums depend only on the value of the condition at the elements summed. */
  lemma {:induction false} SumIfCong(s: seq<Tx>, c1: Tx -> bool, c2: Tx -> bool)
    requires forall i :: 0 <= i < |s| ==> c1(s[i]) == c2(s[i])
    ensures SumIf(s, c1) == SumIf(s, c2)
    decreases |s|
  {
    if s != [] {
      SumIfCong(s[..|s| - 1], c1, c2);
    }
  }

  lemma NetIfCong(s: seq<Tx>, c1: Tx -> bool, c2: Tx -> bool)
    requires forall i :: 0 <= i < |s| ==> c1(s[i]) == c2(s[i])
    ensures NetIf(s, c1) == NetIf(s, c2)
  {
    SumIfCong(s, x => c1(x) && x.kind == Income, x => c2(x) && x.kind == Income);
    SumIfCong(s, x => c1(x) && x.kind == Expense, x => c2(x) && x.kind == Expense);
  }

  /** A sum over a condition that holds of nothing is 0. */
  lemma {:induction false} SumIfNone(s: seq<Tx>, c: Tx -> bool)
    requires forall i :: 0 <= i < |s| ==> !c(s[i])
    ensures SumIf(s, c) == 0
    decreases |s|
  {
    if s != [] {
      SumIfNone(s[..|s| - 1], c);
    }
  }

  lemma NetIfNone(s: seq<Tx>, c: Tx -> bool)
    requires forall i :: 0 <= i < |s| ==> !c(s[i])
    ensures NetIf(s, c) == 0
  {
    SumIfNone(s, x => c(x) && x.kind == Income);
    SumIfNone(s, x => c(x) && x.kind == Expense);
  }

  /** Summing `c` over the elements kept by a filter `f` is summing `f && c`
      over all of them. */
  lemma {:induction false} SumIfFilter(s: seq<Tx>, f: Tx -> bool, c: Tx -> bool)
    ensures SumIf(Filter(s, f), c) == SumIf(s, x => f(x) && c(x))
    decreases |s|
  {
    if s != [] {
      var init := s[..|s| - 1];
      var last := s[|s| - 1];
      assert s == init + [last];
      FilterAppend(init, last, f);
      SumIfFilter(init, f, c);
      if f(last) {
        SumIfAppend(Filter(init, f), last, c);
      }
      SumIfAppend(init, last, x => f(x) && c(x));
    }
  }

  lemma NetIfFilter(s: seq<Tx>, f: Tx -> bool, c: Tx -> bool)
    ensures NetIf(Filter(s, f), c) == NetIf(s, x => f(x) && c(x))
  {
    SumIfFilterKind(s, f, c, Income);
    SumIfFilterKind(s, f, c, Expense);
  }

  lemma SumIfFilterKind(s: seq<Tx>, f: Tx -> bool, c: Tx -> bool, k: TxType)
    ensures SumIf(Filter(s, f), x => c(x) && x.kind == k) == SumIf(s, x => (f(x) && c(x)) && x.kind == k)
  {
    SumIfFilter(s, f, x => c(x) && x.kind == k);
    SumIfCong(s, x => f(x) && (c(x) && x.kind == k), x => (f(x) && c(x)) && x.kind == k);
  }

  /** When `c` is the disjoint union of `c1` and `c2`, its sum splits. */
  lemma {:induction false} SumIfSplit(s: seq<Tx>, c: Tx -> bool, c1: Tx -> bool, c2: Tx -> bool)
    requires forall i :: 0 <= i < |s| ==> c(s[i]) == (c1(s[i]) || c2(s[i]))
    requires forall i :: 0 <= i < |s| ==> !(c1(s[i]) && c2(s[i]))
    ensures SumIf(s, c) == SumIf(s, c1) + SumIf(s, c2)
    decreases |s|
  {
    if s != [] {
      SumIfSplit(s[..|s| - 1], c, c1, c2);
    }
  }

  lemma NetIfSplit(s: seq<Tx>, c: Tx -> bool, c1: Tx -> bool, c2: Tx -> bool)
    requires forall i :: 0 <= i < |s| ==> c(s[i]) == (c1(s[i]) || c2(s[i]))
    requires forall i :: 0 <= i < |s| ==> !(c1(s[i]) && c2(s[i]))
    ensures NetIf(s, c) == NetIf(s, c1) + NetIf(s, c2)
  {
    SumIfSplit(s, x => c(x) && x.kind == Income, x => c1(x) && x.kind == Income, x => c2(x) && x.kind == Income);
    SumIfSplit(s, x => c(x) && x.kind == Expense, x => c1(x) && x.kind == Expense, x => c2(x) && x.kind == Expense);
  }
}
