/** The summary aggregator of the report controller: for the caller's wallets
    (one, or all), over an optional window [from, to], the opening balance, the
    income and expense inside the window and the closing balance, recomputed
    from the transaction log rather than read from the wallets' balances. */
module Report {
  import opened Common
  import opened Seqs
  import opened Records
  import opened Balance

  datatype SummaryReport = SummaryReport(
    walletIds: seq<WalletId>,
    openingBalance: int,
    totalIncome: int,
    totalExpense: int,
    closingBalance: int)

  /** The wallet filter: the caller's wallets, or the one named if it is theirs. */
  predicate WalletSelected(w: Wallet, user: UserId, walletId: Option<WalletId>) {
    w.owner == user && (walletId.None? || w.id == walletId.value)
  }

  function ResolveWallets(ws: seq<Wallet>, user: UserId, walletId: Option<WalletId>): seq<Wallet> {
    Filter(ws, w => WalletSelected(w, user, walletId))
  }

  /** The sum of the initial balances (the `reduce` over the resolved wallets). */
  function Baseline(ws: seq<Wallet>): int
    decreases |ws|
  {
    if ws == [] then 0 else Baseline(ws[..|ws| - 1]) + ws[|ws| - 1].initialBalance
  }

  /** Wallets within the schema's bound have a non-negative baseline. */
  lemma {:induction false} BaselineNonNegative(ws: seq<Wallet>)
    requires forall i :: 0 <= i < |ws| ==> ws[i].initialBalance >= 0
    ensures Baseline(ws) >= 0
    decreases |ws|
  {
    if ws != [] {
      BaselineNonNegative(ws[..|ws| - 1]);
    }
  }

  /** The baseline of two groups of wallets is the sum of their baselines. */
  lemma {:induction false} BaselineConcat(a: seq<Wallet>, b: seq<Wallet>)
    ensures Baseline(a + b) == Baseline(a) + Baseline(b)
    decreases |b|
  {
    if b == [] {
      assert a + b == a;
    } else {
      assert (a + b)[..|a + b| - 1] == a + b[..|b| - 1];
      BaselineConcat(a, b[..|b| - 1]);
    }
  }

  function Ids(ws: seq<Wallet>): seq<WalletId>
    decreases |ws|
  {
    if ws == [] then [] else [ws[0].id] + Ids(ws[1..])
  }

  /** The owner and optional-wallet filter: the scope of the `$match` stage,
      and the filter of the history endpoint. */
  predicate InScope(t: Tx, user: UserId, walletId: Option<WalletId>) {
    t.owner == user && (walletId.None? || t.walletId == walletId.value)
  }

  /** The `$match` stage: in scope and not after `to`. */
  predicate MatchStage(t: Tx, user: UserId, walletId: Option<WalletId>, to: Option<int>) {
    InScope(t, user, walletId) && (to.None? || t.occurredAt <= to.value)
  }

  function Matched(txs: seq<Tx>, user: UserId, walletId: Option<WalletId>, to: Option<int>): seq<Tx> {
    Filter(txs, t => MatchStage(t, user, walletId, to))
  }

  /** The `$match` stage passes on exactly the logged transactions in scope and
      not after `to`, each no more often than it was logged. */
  lemma MatchedMembers(txs: seq<Tx>, user: UserId, walletId: Option<WalletId>, to: Option<int>)
    ensures var r := Matched(txs, user, walletId, to);
      && (forall t :: t in r <==> t in txs && MatchStage(t, user, walletId, to))
      && multiset(r) <= multiset(txs)
  {
    forall t
      ensures t in Matched(txs, user, walletId, to) <==> t in txs && MatchStage(t, user, walletId, to)
    {
      FilterMember(txs, t => MatchStage(t, user, walletId, to), t);
    }
  }

  /** The range condition: the type, then `>= from` and `<= to` for the bounds given. */
  predicate RangeCond(t: Tx, kind: TxType, from: Option<int>, to: Option<int>) {
    t.kind == kind
    && (from.None? || t.occurredAt >= from.value)
    && (to.None? || t.occurredAt <= to.value)
  }

  /** The before condition: literally false without `from`, else the type and `< from`. */
  predicate BeforeCond(t: Tx, kind: TxType, from: Option<int>) {
    from.Some? && t.kind == kind && t.occurredAt < from.value
  }

  datatype Group = Group(totalIncome: int, totalExpense: int, beforeIncome: int, beforeExpense: int)

  /** The `$group` stage: with a null key it emits one document, or none at all
      when no transaction reached it. */
  function GroupStage(matched: seq<Tx>, from: Option<int>, to: Option<int>): Option<Group> {
    if matched == [] then None
    else Some(Group(
      SumIf(matched, t => RangeCond(t, Income, from, to)),
      SumIf(matched, t => RangeCond(t, Expense, from, to)),
      SumIf(matched, t => BeforeCond(t, Income, from)),
      SumIf(matched, t => BeforeCond(t, Expense, from))))
  }

  /** The group document exists exactly when some transaction reached the
      stage; without `from` its before-sums are 0, and without `to` every
      amount of a type is counted once, in the window or before it. */
  lemma GroupStageParts(matched: seq<Tx>, from: Option<int>, to: Option<int>)
    ensures var r := GroupStage(matched, from, to);
      && (r.None? <==> matched == [])
      && (r.Some? && from.None? ==> r.value.beforeIncome == 0 && r.value.beforeExpense == 0)
      && (r.Some? && from.Some? && to.None? ==>
            && r.value.totalIncome + r.value.beforeIncome == SumIf(matched, (t: Tx) => t.kind == Income)
            && r.value.totalExpense + r.value.beforeExpense == SumIf(matched, (t: Tx) => t.kind == Expense))
  {
    GroupParts(matched, from, to, Income);
    GroupParts(matched, from, to, Expense);
  }

  lemma GroupParts(matched: seq<Tx>, from: Option<int>, to: Option<int>, k: TxType)
    ensures from.None? ==> SumIf(matched, t => BeforeCond(t, k, from)) == 0
    ensures from.Some? && to.None? ==>
      SumIf(matched, t => RangeCond(t, k, from, to)) + SumIf(matched, t => BeforeCond(t, k, from))
      == SumIf(matched, (t: Tx) => t.kind == k)
  {
    if from.None? {
      SumIfNone(matched, t => BeforeCond(t, k, from));
    } else if to.None? {
      SumIfSplit(matched, (t: Tx) => t.kind == k, t => RangeCond(t, k, from, to), t => BeforeCond(t, k, from));
    }
  }

  /** The summary report: NotFound when no wallet is selected; otherwise the
      baseline, adjusted by the history before `from` when there is one, and the
      window totals, with missing aggregates read as 0. */
  function Summary(ws: seq<Wallet>, txs: seq<Tx>, user: UserId, walletId: Option<WalletId>,
                   from: Option<int>, to: Option<int>): (r: Result<SummaryReport>)
    ensures r.Err? <==> forall i :: 0 <= i < |ws| ==> !WalletSelected(ws[i], user, walletId)
    ensures r.Err? ==> r.error == NotFound
  {
    var wallets := ResolveWallets(ws, user, walletId);
    if wallets == [] then
      assert forall i :: 0 <= i < |ws| ==> !WalletSelected(ws[i], user, walletId);
      Err(NotFound)
    else
      assert wallets[0] in ws;
      var opening0 := Baseline(wallets);
      var aggregated := GroupStage(Matched(txs, user, walletId, to), from, to);
      var totalIncome := if aggregated.Some? then aggregated.value.totalIncome else 0;
      var totalExpense := if aggregated.Some? then aggregated.value.totalExpense else 0;
      var opening :=
        if from.Some? && aggregated.Some?
        then opening0 + aggregated.value.beforeIncome - aggregated.value.beforeExpense
        else opening0;
      Ok(SummaryReport(Ids(wallets), opening, totalIncome, totalExpense,
                       opening + totalIncome - totalExpense))
  }

  /** Where a transaction of the selected wallets counts, on its own terms:
      after `to` nowhere, strictly before `from` in the opening balance, else in
      the window. */
  datatype Region = Opening | Window | Outside

  function RegionOf(t: Tx, from: Option<int>, to: Option<int>): Region {
    if to.Some? && t.occurredAt > to.value then Outside
    else if from.Some? && t.occurredAt < from.value then Opening
    else Window
  }

  /** A sum over the matched transactions is a sum over all of them under the
      match condition. */
  lemma SumOverMatched(txs: seq<Tx>, user: UserId, walletId: Option<WalletId>, to: Option<int>,
                       c: Tx -> bool, target: Tx -> bool)
    requires forall i :: 0 <= i < |txs| ==> target(txs[i]) == (MatchStage(txs[i], user, walletId, to) && c(txs[i]))
    ensures SumIf(Matched(txs, user, walletId, to), c) == SumIf(txs, target)
  {
    var m := (t: Tx) => MatchStage(t, user, walletId, to);
    SumIfFilter(txs, m, c);
    SumIfCong(txs, x => m(x) && c(x), target);
  }

  /** The four figures of a successful summary, by region: the opening balance
      is the baseline plus the net of the opening region, the totals are the
      income and expense of the window, and the closing balance completes them. */
  lemma SummaryByRegion(ws: seq<Wallet>, txs: seq<Tx>, user: UserId, walletId: Option<WalletId>,
                        from: Option<int>, to: Option<int>)
    requires ResolveWallets(ws, user, walletId) != []
    ensures var r := Summary(ws, txs, user, walletId, from, to);
      && r.Ok?
      && r.value.walletIds == Ids(ResolveWallets(ws, user, walletId))
      && r.value.openingBalance == Baseline(ResolveWallets(ws, user, walletId))
           + NetIf(txs, t => InScope(t, user, walletId) && RegionOf(t, from, to) == Opening)
      && r.value.totalIncome
           == SumIf(txs, t => InScope(t, user, walletId) && RegionOf(t, from, to) == Window && t.kind == Income)
      && r.value.totalExpense
           == SumIf(txs, t => InScope(t, user, walletId) && RegionOf(t, from, to) == Window && t.kind == Expense)
      && r.value.closingBalance == r.value.openingBalance + r.value.totalIncome - r.value.totalExpense
  {
    var matched := Matched(txs, user, walletId, to);
    GroupByRegion(txs, user, walletId, from, to);
    if from.None? {
      NetIfNone(txs, t => InScope(t, user, walletId) && RegionOf(t, from, to) == Opening);
    }
  }

  /** The `$group` stage's sums, as sums over the whole log by region. */
  lemma GroupByRegion(txs: seq<Tx>, user: UserId, walletId: Option<WalletId>, from: Option<int>, to: Option<int>)
    ensures var m := Matched(txs, user, walletId, to);
      && SumIf(m, t => RangeCond(t, Income, from, to))
         == SumIf(txs, t => InScope(t, user, walletId) && RegionOf(t, from, to) == Window && t.kind == Income)
      && SumIf(m, t => RangeCond(t, Expense, from, to))
         == SumIf(txs, t => InScope(t, user, walletId) && RegionOf(t, from, to) == Window && t.kind == Expense)
      && SumIf(m, t => BeforeCond(t, Income, from)) - SumIf(m, t => BeforeCond(t, Expense, from))
         == NetIf(txs, t => InScope(t, user, walletId) && RegionOf(t, from, to) == Opening)
  {
    WindowByRegion(txs, user, walletId, from, to, Income);
    WindowByRegion(txs, user, walletId, from, to, Expense);
    OpeningByRegion(txs, user, walletId, from, to, Income);
    OpeningByRegion(txs, user, walletId, from, to, Expense);
  }

  lemma WindowByRegion(txs: seq<Tx>, user: UserId, walletId: Option<WalletId>, from: Option<int>, to: Option<int>,
                       k: TxType)
    ensures SumIf(Matched(txs, user, walletId, to), t => RangeCond(t, k, from, to))
         == SumIf(txs, t => InScope(t, user, walletId) && RegionOf(t, from, to) == Window && t.kind == k)
  {
    SumOverMatched(txs, user, walletId, to, t => RangeCond(t, k, from, to),
                   t => InScope(t, user, walletId) && RegionOf(t, from, to) == Window && t.kind == k);
  }

  lemma OpeningByRegion(txs: seq<Tx>, user: UserId, walletId: Option<WalletId>, from: Option<int>, to: Option<int>,
                        k: TxType)
    ensures var open := (t: Tx) => InScope(t, user, walletId) && RegionOf(t, from, to) == Opening;
      SumIf(Matched(txs, user, walletId, to), t => BeforeCond(t, k, from)) == SumIf(txs, x => open(x) && x.kind == k)
  {
    var open := (t: Tx) => InScope(t, user, walletId) && RegionOf(t, from, to) == Opening;
    SumOverMatched(txs, user, walletId, to, t => BeforeCond(t, k, from), x => open(x) && x.kind == k);
  }

  /** Without `from` there is no history replay: the opening balance is the
      sum of the initial balances of exactly the selected wallets. */
  lemma OpeningWithoutFrom(ws: seq<Wallet>, txs: seq<Tx>, user: UserId, walletId: Option<WalletId>, to: Option<int>)
    requires ResolveWallets(ws, user, walletId) != []
    ensures var r := Summary(ws, txs, user, walletId, None, to);
      && r.Ok?
      && r.value.openingBalance == Baseline(ResolveWallets(ws, user, walletId))
      && r.value.closingBalance == r.value.openingBalance + r.value.totalIncome - r.value.totalExpense
  {
  }

  /** The closing balance is the balance as of `to`: the baseline plus the net
      of every selected transaction not after `to`, whatever `from` is. */
  lemma ClosingIsBalanceAsOf(ws: seq<Wallet>, txs: seq<Tx>, user: UserId, walletId: Option<WalletId>,
                             from: Option<int>, to: Option<int>)
    requires ResolveWallets(ws, user, walletId) != []
    ensures var r := Summary(ws, txs, user, walletId, from, to);
      && r.Ok?
      && r.value.closingBalance == Baseline(ResolveWallets(ws, user, walletId))
           + NetIf(txs, t => MatchStage(t, user, walletId, to))
  {
    SummaryByRegion(ws, txs, user, walletId, from, to);
    var open := (t: Tx) => InScope(t, user, walletId) && RegionOf(t, from, to) == Opening;
    var win := (t: Tx) => InScope(t, user, walletId) && RegionOf(t, from, to) == Window;
    NetIfSplit(txs, t => MatchStage(t, user, walletId, to), open, win);
    SumIfCong(txs, x => win(x) && x.kind == Income,
              t => InScope(t, user, walletId) && RegionOf(t, from, to) == Window && t.kind == Income);
    SumIfCong(txs, x => win(x) && x.kind == Expense,
              t => InScope(t, user, walletId) && RegionOf(t, from, to) == Window && t.kind == Expense);
  }

  /** A transaction after `to`, or outside the selected wallets, changes nothing. */
  lemma ContributionOutside(ws: seq<Wallet>, txs: seq<Tx>, t: Tx, user: UserId, walletId: Option<WalletId>,
                            from: Option<int>, to: Option<int>)
    requires ResolveWallets(ws, user, walletId) != []
    requires !InScope(t, user, walletId) || (to.Some? && t.occurredAt > to.value)
    ensures var before := Summary(ws, txs, user, walletId, from, to).value;
      var after := Summary(ws, txs + [t], user, walletId, from, to).value;
      && after.walletIds == before.walletIds
      && after.openingBalance == before.openingBalance
      && after.totalIncome == before.totalIncome
      && after.totalExpense == before.totalExpense
      && after.closingBalance == before.closingBalance
  {
    SummaryByRegion(ws, txs, user, walletId, from, to);
    SummaryByRegion(ws, txs + [t], user, walletId, from, to);
    NetIfAppend(txs, t, x => InScope(x, user, walletId) && RegionOf(x, from, to) == Opening);
    SumIfAppend(txs, t, x => InScope(x, user, walletId) && RegionOf(x, from, to) == Window && x.kind == Income);
    SumIfAppend(txs, t, x => InScope(x, user, walletId) && RegionOf(x, from, to) == Window && x.kind == Expense);
  }

  /** A selected transaction strictly before `from` (and not after `to`) moves
      only the opening balance, by its signed amount, and the closing balance with it. */
  lemma ContributionBeforeFrom(ws: seq<Wallet>, txs: seq<Tx>, t: Tx, user: UserId, walletId: Option<WalletId>,
                               from: Option<int>, to: Option<int>)
    requires ResolveWallets(ws, user, walletId) != []
    requires InScope(t, user, walletId) && from.Some? && t.occurredAt < from.value
    requires to.None? || t.occurredAt <= to.value
    ensures var before := Summary(ws, txs, user, walletId, from, to).value;
      var after := Summary(ws, txs + [t], user, walletId, from, to).value;
      && after.openingBalance == before.openingBalance + Signed(t)
      && after.totalIncome == before.totalIncome
      && after.totalExpense == before.totalExpense
      && after.closingBalance == before.closingBalance + Signed(t)
  {
    SummaryByRegion(ws, txs, user, walletId, from, to);
    SummaryByRegion(ws, txs + [t], user, walletId, from, to);
    NetIfAppend(txs, t, x => InScope(x, user, walletId) && RegionOf(x, from, to) == Opening);
    SumIfAppend(txs, t, x => InScope(x, user, walletId) && RegionOf(x, from, to) == Window && x.kind == Income);
    SumIfAppend(txs, t, x => InScope(x, user, walletId) && RegionOf(x, from, to) == Window && x.kind == Expense);
  }

  /** A selected transaction at or after `from` (and not after `to`) adds only
      to the total of its own type; one exactly at `from` is such a transaction. */
  lemma ContributionInWindow(ws: seq<Wallet>, txs: seq<Tx>, t: Tx, user: UserId, walletId: Option<WalletId>,
                             from: Option<int>, to: Option<int>)
    requires ResolveWallets(ws, user, walletId) != []
    requires InScope(t, user, walletId) && (from.None? || t.occurredAt >= from.value)
    requires to.None? || t.occurredAt <= to.value
    ensures var before := Summary(ws, txs, user, walletId, from, to).value;
      var after := Summary(ws, txs + [t], user, walletId, from, to).value;
      && after.openingBalance == before.openingBalance
      && after.totalIncome == before.totalIncome + (if t.kind == Income then t.amount else 0)
      && after.totalExpense == before.totalExpense + (if t.kind == Expense then t.amount else 0)
      && after.closingBalance == before.closingBalance + Signed(t)
  {
    SummaryByRegion(ws, txs, user, walletId, from, to);
    SummaryByRegion(ws, txs + [t], user, walletId, from, to);
    NetIfAppend(txs, t, x => InScope(x, user, walletId) && RegionOf(x, from, to) == Opening);
    SumIfAppend(txs, t, x => InScope(x, user, walletId) && RegionOf(x, from, to) == Window && x.kind == Income);
    SumIfAppend(txs, t, x => InScope(x, user, walletId) && RegionOf(x, from, to) == Window && x.kind == Expense);
  }

  /** The two paths agree: for one wallet with no window, the report's closing
      balance is the wallet's replayed balance, and so its materialized balance
      whenever that is balanced. */
  lemma ClosingMatchesWallet(ws: seq<Wallet>, txs: seq<Tx>, k: nat)
    requires UniqueWalletIds(ws) && k < |ws|
    ensures var w := ws[k];
      var r := Summary(ws, txs, w.owner, Some(w.id), None, None);
      && r.Ok?
      && r.value.walletIds == [w.id]
      && r.value.openingBalance == w.initialBalance
      && r.value.closingBalance == Replayed(w, txs)
      && (Balanced(w, txs) ==> r.value.closingBalance == w.balance)
  {
    var w := ws[k];
    FilterSingle(ws, v => WalletSelected(v, w.owner, Some(w.id)), k);
    assert ResolveWallets(ws, w.owner, Some(w.id)) == [w];
    assert Baseline([w]) == w.initialBalance by {
      assert [w][..0] == [];
    }
    assert Ids([w]) == [w.id] by {
      assert [w][1..] == [];
    }
    ClosingIsBalanceAsOf(ws, txs, w.owner, Some(w.id), None, None);
    NetIfCong(txs, t => MatchStage(t, w.owner, Some(w.id), None), (t: Tx) => t.walletId == w.id && t.owner == w.owner);
  }

  /** With no transactions the report is the selected wallets' baseline,
      whatever the window. */
  lemma SummaryEmptyLog(ws: seq<Wallet>, user: UserId, walletId: Option<WalletId>, from: Option<int>, to: Option<int>)
    requires ResolveWallets(ws, user, walletId) != []
    ensures var sel := ResolveWallets(ws, user, walletId);
      Summary(ws, [], user, walletId, from, to)
        == Ok(SummaryReport(Ids(sel), Baseline(sel), 0, 0, Baseline(sel)))
  {
    assert Matched([], user, walletId, to) == [];
  }

  /** A single wallet selected by its own id: baseline and ids are its own. */
  lemma SingleWallet(w: Wallet)
    ensures ResolveWallets([w], w.owner, Some(w.id)) == [w]
    ensures Baseline([w]) == w.initialBalance && Ids([w]) == [w.id]
  {
    assert [] + [w] == [w];
    FilterAppend([], w, v => WalletSelected(v, w.owner, Some(w.id)));
    assert [w][..0] == [];
    assert [w][1..] == [];
  }

  /** One wallet, one income and a later expense: over the window from the
      income to the expense the report shows both movements on top of the
      initial balance. */
  lemma SummaryTwoMovements(w: Wallet, inc: Tx, exp: Tx)
    requires Of(inc, w) && Of(exp, w) && inc.kind == Income && exp.kind == Expense
    requires inc.occurredAt < exp.occurredAt
    ensures Summary([w], [inc, exp], w.owner, Some(w.id), Some(inc.occurredAt), Some(exp.occurredAt))
         == Ok(SummaryReport([w.id], w.initialBalance, inc.amount, exp.amount,
                             w.initialBalance + inc.amount - exp.amount))
  {
    var u, id, a, b := w.owner, Some(w.id), Some(inc.occurredAt), Some(exp.occurredAt);
    SingleWallet(w);
    SummaryByRegion([w], [inc, exp], u, id, a, b);
    TwoSums(inc, exp, t => InScope(t, u, id) && RegionOf(t, a, b) == Window && t.kind == Income);
    TwoSums(inc, exp, t => InScope(t, u, id) && RegionOf(t, a, b) == Window && t.kind == Expense);
    TwoNets(inc, exp, t => InScope(t, u, id) && RegionOf(t, a, b) == Opening);
  }

  /** The same log over the window at the expense alone: the income has moved
      into the opening balance and the closing balance is unchanged. */
  lemma SummaryTwoMovementsLaterFrom(w: Wallet, inc: Tx, exp: Tx)
    requires Of(inc, w) && Of(exp, w) && inc.kind == Income && exp.kind == Expense
    requires inc.occurredAt < exp.occurredAt
    ensures Summary([w], [inc, exp], w.owner, Some(w.id), Some(exp.occurredAt), Some(exp.occurredAt))
         == Ok(SummaryReport([w.id], w.initialBalance + inc.amount, 0, exp.amount,
                             w.initialBalance + inc.amount - exp.amount))
  {
    var u, id, b := w.owner, Some(w.id), Some(exp.occurredAt);
    SingleWallet(w);
    SummaryByRegion([w], [inc, exp], u, id, b, b);
    TwoSums(inc, exp, t => InScope(t, u, id) && RegionOf(t, b, b) == Window && t.kind == Income);
    TwoSums(inc, exp, t => InScope(t, u, id) && RegionOf(t, b, b) == Window && t.kind == Expense);
    TwoNets(inc, exp, t => InScope(t, u, id) && RegionOf(t, b, b) == Opening);
  }

  /** A conditional sum over a two-transaction log. */
  lemma TwoSums(x: Tx, y: Tx, c: Tx -> bool)
    ensures SumIf([x, y], c) == (if c(x) then x.amount else 0) + (if c(y) then y.amount else 0)
  {
    assert [x, y] == [x] + [y];
    assert [x] == [] + [x];
    SumIfAppend([x], y, c);
    SumIfAppend([], x, c);
  }

  lemma TwoNets(x: Tx, y: Tx, c: Tx -> bool)
    ensures NetIf([x, y], c) == (if c(x) then Signed(x) else 0) + (if c(y) then Signed(y) else 0)
  {
    assert [x, y] == [x] + [y];
    assert [x] == [] + [x];
    NetIfAppend([x], y, c);
    NetIfAppend([], x, c);
  }

  /** The same with figures: a wallet opened with 1000, income 500 at time 1,
      expense 300 at time 2. */
  lemma SummaryExample()
    ensures var w := Wallet(0, 0, "cash", "001", 1000, 1200, DefaultCurrency, 0);
      var txs := [Tx(0, 0, 0, Income, 500, "salary", "", 1), Tx(1, 0, 0, Expense, 300, "rent", "", 2)];
      && Summary([w], txs, 0, Some(0), Some(1), Some(2)) == Ok(SummaryReport([0], 1000, 500, 300, 1200))
      && Summary([w], txs, 0, Some(0), Some(2), Some(2)) == Ok(SummaryReport([0], 1500, 0, 300, 1200))
  {
    var w := Wallet(0, 0, "cash", "001", 1000, 1200, DefaultCurrency, 0);
    var inc, exp := Tx(0, 0, 0, Income, 500, "salary", "", 1), Tx(1, 0, 0, Expense, 300, "rent", "", 2);
    SummaryTwoMovements(w, inc, exp);
    SummaryTwoMovementsLaterFrom(w, inc, exp);
  }
}
