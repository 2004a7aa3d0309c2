/** The wallet and transaction controllers as operations on one store: the
    wallet collection and the transaction collection of the document store, each
    request one atomic step. */
module Ledger {
  import opened Common
  import opened Seqs
  import opened Records
  import opened Balance
  import opened Report

  /** The body of a create-transaction request. An absent or empty string field
      is "", an absent number is None. */
  datatype TxRequest = TxRequest(
    walletId: Option<WalletId>,
    kind: string,
    amount: Option<int>,
    category: string,
    note: string,
    occurredAt: Option<int>)

  /** The query of the transaction list; an empty `kind` is no type filter. */
  datatype TxQuery = TxQuery(walletId: Option<WalletId>, kind: string, from: Option<int>, to: Option<int>)

  /** The list endpoint's fixed result cap. */
  const ListCap: nat := 200

  /** The history endpoint's limit when the query gives none. */
  const DefaultHistoryLimit: nat := 50

  /** The index of the caller's wallet `id`, if it exists. */
  function FindWallet(ws: seq<Wallet>, id: WalletId, user: UserId): (r: Option<nat>)
    ensures r.Some? ==> r.value < |ws| && ws[r.value].id == id && ws[r.value].owner == user
    ensures r.Some? ==> forall i :: 0 <= i < r.value ==> !(ws[i].id == id && ws[i].owner == user)
    ensures r.None? <==> forall i :: 0 <= i < |ws| ==> !(ws[i].id == id && ws[i].owner == user)
  {
    FirstIndex(ws, (w: Wallet) => w.id == id && w.owner == user)
  }

  /** The index of the caller's first transaction `id`, if it exists. */
  function FindTx(txs: seq<Tx>, id: TxId, user: UserId): (r: Option<nat>)
    ensures r.Some? ==> r.value < |txs| && txs[r.value].id == id && txs[r.value].owner == user
    ensures r.Some? ==> forall k :: 0 <= k < r.value ==> !(txs[k].id == id && txs[k].owner == user)
    ensures r.None? <==> forall k :: 0 <= k < |txs| ==> !(txs[k].id == id && txs[k].owner == user)
  {
    FirstIndex(txs, (t: Tx) => t.id == id && t.owner == user)
  }

  /** Moving a wallet's balance does not change which wallet a lookup finds. */
  lemma FindWalletAfterBalance(ws: seq<Wallet>, i: nat, b: int, id: WalletId, user: UserId)
    requires FindWallet(ws, id, user) == Some(i)
    ensures FindWallet(ws[i := ws[i].(balance := b)], id, user) == Some(i)
  {
    var ws' := ws[i := ws[i].(balance := b)];
    assert forall j :: 0 <= j < |ws'| && j != i ==> ws'[j] == ws[j];
    assert ws'[i].id == id && ws'[i].owner == user;
    var r := FindWallet(ws', id, user);
    assert r.Some?;
  }

  /** Some wallet of `user` already has account number `acct`. */
  predicate AccountTaken(ws: seq<Wallet>, user: UserId, acct: string) {
    exists i :: 0 <= i < |ws| && ws[i].owner == user && ws[i].accountNumber == acct
  }

  /** Some wallet of `user` other than the one at `i` has account number `acct`. */
  predicate AccountTakenByOther(ws: seq<Wallet>, user: UserId, acct: string, i: nat) {
    exists j :: 0 <= j < |ws| && j != i && ws[j].owner == user && ws[j].accountNumber == acct
  }

  ghost predicate UniqueAccounts(ws: seq<Wallet>) {
    forall i, j :: 0 <= i < j < |ws| ==>
      !(ws[i].owner == ws[j].owner && ws[i].accountNumber == ws[j].accountNumber)
  }

  /** The wallet after an update: each of name, account number and currency is
      replaced when the request gives it, and nothing else moves. */
  function Renamed(w: Wallet, name: string, accountNumber: string, currency: string): (r: Wallet)
    ensures r.id == w.id && r.owner == w.owner && r.createdAt == w.createdAt
    ensures r.initialBalance == w.initialBalance && r.balance == w.balance
    ensures r.name == (if name != "" then name else w.name)
    ensures r.accountNumber == (if accountNumber != "" then accountNumber else w.accountNumber)
    ensures r.currency == (if currency != "" then currency else w.currency)
  {
    var w1 := if name != "" then w.(name := name) else w;
    var w2 := if accountNumber != "" then w1.(accountNumber := accountNumber) else w1;
    if currency != "" then w2.(currency := currency) else w2
  }

  /** A required field is absent or falsy; an amount of 0 counts as absent. */
  predicate MissingField(req: TxRequest): (r: bool)
    ensures !r ==> req.walletId.Some? && req.amount.Some? && req.amount.value != 0
    ensures !r ==> req.kind != "" && req.category != ""
    ensures req.amount == Some(0) ==> r
    ensures req.walletId.Some? && req.kind != "" && req.amount.Some? && req.amount.value != 0 && req.category != "" ==> !r
  {
    req.walletId.None? || req.kind == "" || req.amount.None? || req.amount.value == 0 || req.category == ""
  }

  /** A create-transaction request that passes every check against wallets `ws`. */
  predicate Admissible(ws: seq<Wallet>, user: UserId, req: TxRequest) {
    && !MissingField(req)
    && FindWallet(ws, req.walletId.value, user).Some?
    && req.amount.value > 0
    && !(req.kind == "expense" && ws[FindWallet(ws, req.walletId.value, user).value].balance < req.amount.value)
    && ParseType(req.kind).Some?
  }

  /** The list endpoint's filter: owner, optional wallet and type, inclusive window. */
  predicate ListMatch(t: Tx, user: UserId, q: TxQuery) {
    && t.owner == user
    && (q.walletId.None? || t.walletId == q.walletId.value)
    && (q.kind == "" || TypeName(t.kind) == q.kind)
    && (q.from.None? || t.occurredAt >= q.from.value)
    && (q.to.None? || t.occurredAt <= q.to.value)
  }

  function Listable(txs: seq<Tx>, user: UserId, q: TxQuery): seq<Tx> {
    Filter(txs, t => ListMatch(t, user, q))
  }

  function HistoryOf(txs: seq<Tx>, user: UserId, walletId: Option<WalletId>): seq<Tx> {
    Filter(txs, t => InScope(t, user, walletId))
  }

  function OwnedWallets(ws: seq<Wallet>, user: UserId): seq<Wallet> {
    Filter(ws, (w: Wallet) => w.owner == user)
  }

  /** Sort newest first and keep at most `cap` (0: keep all, as a limit of 0
      means no limit to the store). */
  function NewestFirst(s: seq<Tx>, cap: nat): seq<Tx> {
    var sorted := SortBy(s, (t: Tx) => -t.occurredAt);
    if cap == 0 then sorted else Take(sorted, cap)
  }

  lemma NewestFirstProps(s: seq<Tx>, cap: nat)
    ensures var r := NewestFirst(s, cap);
      && (forall i, j :: 0 <= i < j < |r| ==> r[i].occurredAt >= r[j].occurredAt)
      && |r| == (if cap == 0 then |s| else Min(cap, |s|))
      && multiset(r) <= multiset(s)
      && (forall i :: 0 <= i < |r| ==> r[i] in s)
      && (cap == 0 || |s| <= cap ==> multiset(r) == multiset(s))
      && (forall t :: t in s && t !in r ==> forall i :: 0 <= i < |r| ==> t.occurredAt <= r[i].occurredAt)
  {
    var key := (t: Tx) => -t.occurredAt;
    var sorted := SortBy(s, key);
    assert |sorted| == |s| by {
      assert |multiset(sorted)| == |multiset(s)|;
    }
    SmallestFirst(s, key, if cap == 0 then |s| else cap);
    var r := NewestFirst(s, cap);
    forall i | 0 <= i < |r|
      ensures r[i] in s
    {
      assert r[i] in multiset(r);
    }
  }

  /** The wallet collection's invariant: both balances non-negative, ids below
      the counter and unique, (owner, account number) unique. */
  ghost predicate WalletsValid(ws: seq<Wallet>, nextWalletId: WalletId) {
    && (forall i :: 0 <= i < |ws| ==> WalletInBounds(ws[i]) && ws[i].id < nextWalletId)
    && UniqueWalletIds(ws)
    && UniqueAccounts(ws)
  }

  /** The transaction collection's invariant: positive amounts, ids below the
      counters and unique. */
  ghost predicate TxsValid(txs: seq<Tx>, nextTxId: TxId, nextWalletId: WalletId) {
    && (forall k :: 0 <= k < |txs| ==> txs[k].amount > 0 && txs[k].id < nextTxId && txs[k].walletId < nextWalletId)
    && UniqueTxIds(txs)
  }

  ghost predicate UniqueTxIds(txs: seq<Tx>) {
    forall a, b :: 0 <= a < b < |txs| ==> txs[a].id != txs[b].id
  }

  lemma WalletsRemoveValid(ws: seq<Wallet>, n: WalletId, i: nat)
    requires WalletsValid(ws, n) && i < |ws|
    ensures WalletsValid(ws[..i] + ws[i + 1..], n)
  {
    var ws' := ws[..i] + ws[i + 1..];
    forall a, b | 0 <= a < b < |ws'|
      ensures ws'[a].id != ws'[b].id
      ensures !(ws'[a].owner == ws'[b].owner && ws'[a].accountNumber == ws'[b].accountNumber)
    {
      var a' := if a < i then a else a + 1;
      var b' := if b < i then b else b + 1;
      assert ws'[a] == ws[a'] && ws'[b] == ws[b'] && a' < b';
    }
    forall a | 0 <= a < |ws'|
      ensures WalletInBounds(ws'[a]) && ws'[a].id < n
    {
      assert ws'[a] == ws[if a < i then a else a + 1];
    }
  }

  lemma WalletsSetBalanceValid(ws: seq<Wallet>, n: WalletId, i: nat, b: int)
    requires WalletsValid(ws, n) && i < |ws| && b >= 0
    ensures WalletsValid(ws[i := ws[i].(balance := b)], n)
  {
  }

  lemma TxsAppendValid(txs: seq<Tx>, nt: TxId, nw: WalletId, t: Tx)
    requires TxsValid(txs, nt, nw) && t.amount > 0 && t.id == nt && t.walletId < nw
    ensures TxsValid(txs + [t], nt + 1, nw)
  {
  }

  lemma TxsRemoveValid(txs: seq<Tx>, nt: TxId, nw: WalletId, k: nat)
    requires TxsValid(txs, nt, nw) && k < |txs|
    ensures TxsValid(txs[..k] + txs[k + 1..], nt, nw)
    ensures var txs' := txs[..k] + txs[k + 1..]; forall j :: 0 <= j < |txs'| ==> txs'[j].id != txs[k].id
  {
    var txs' := txs[..k] + txs[k + 1..];
    forall a | 0 <= a < |txs'|
      ensures txs'[a].amount > 0 && txs'[a].id < nt && txs'[a].walletId < nw
    {
      assert txs'[a] == txs[if a < k then a else a + 1];
    }
    forall a, b | 0 <= a < b < |txs'|
      ensures txs'[a].id != txs'[b].id
    {
      var a' := if a < k then a else a + 1;
      var b' := if b < k then b else b + 1;
      assert txs'[a] == txs[a'] && txs'[b] == txs[b'] && a' < b';
    }
    forall j | 0 <= j < |txs'|
      ensures txs'[j].id != txs[k].id
    {
      assert txs'[j] == txs[if j < k then j else j + 1];
    }
  }

  lemma TxsCascadeValid(txs: seq<Tx>, nt: TxId, nw: WalletId, w: Wallet)
    requires TxsValid(txs, nt, nw)
    ensures TxsValid(Cascade(txs, w), nt, nw)
  {
    var r := Cascade(txs, w);
    forall a | 0 <= a < |r|
      ensures r[a].amount > 0 && r[a].id < nt && r[a].walletId < nw
    {
      var k :| 0 <= k < |txs| && txs[k] == r[a];
    }
    var id := (t: Tx) => t.id;
    assert r == Filter(txs, (t: Tx) => !Of(t, w));
    FilterDistinct(txs, (t: Tx) => !Of(t, w), id);
    forall a, b | 0 <= a < b < |r|
      ensures r[a].id != r[b].id
    {
      assert id(r[a]) != id(r[b]);
    }
  }

  class Ledger {
    var wallets: seq<Wallet>
    var txs: seq<Tx>
    var nextWalletId: WalletId
    var nextTxId: TxId

    /** The store's invariant: schema bounds, unique wallet and transaction
        ids, unique (owner, account number), positive amounts, ids below the
        counters. */
    ghost predicate Valid()
      reads this
    {
      WalletsValid(wallets, nextWalletId) && TxsValid(txs, nextTxId, nextWalletId)
    }

    /** Every wallet's materialized balance equals its replayed balance. */
    ghost predicate Consistent()
      reads this
    {
      AllBalanced(wallets, txs)
    }

    /** Deleting the caller's transaction `id` would hit the floor at 0. */
    ghost predicate DeleteWouldClamp(user: UserId, id: TxId)
      reads this
    {
      var k := FindTx(txs, id, user);
      && k.Some?
      && var t := txs[k.value];
      var i := FindWallet(wallets, t.walletId, user);
      && i.Some?
      && Unclamped(wallets[i.value].balance, t.kind, t.amount) < 0
    }

    constructor ()
      ensures Valid() && Consistent()
      ensures wallets == [] && txs == [] && nextWalletId == 0 && nextTxId == 0
    {
      wallets, txs := [], [];
      nextWalletId, nextTxId := 0, 0;
    }

    /** Create a wallet: name and account number are required, the initial
        balance defaults to 0 and must not be negative, the account number must
        be new for the owner; the balance starts at the initial balance and the
        currency defaults to VND. */
    method CreateWallet(user: UserId, name: string, accountNumber: string, initialBalance: Option<int>,
                        currency: string, now: int) returns (r: Result<Wallet>)
      requires Valid()
      modifies this
      ensures Valid()
      ensures old(Consistent()) ==> Consistent()
      ensures txs == old(txs) && nextTxId == old(nextTxId)
      ensures name == "" || accountNumber == "" ==> r == Err(ValidationError)
      ensures name != "" && accountNumber != "" && initialBalance.GetOr(0) < 0 ==> r == Err(ValidationError)
      ensures (name != "" && accountNumber != "" && initialBalance.GetOr(0) >= 0
               && AccountTaken(old(wallets), user, accountNumber)) ==> r == Err(Conflict)
      ensures r.Ok? <==> (name != "" && accountNumber != "" && initialBalance.GetOr(0) >= 0
                          && !AccountTaken(old(wallets), user, accountNumber))
      ensures r.Ok? ==>
        && r.value == Wallet(old(nextWalletId), user, name, accountNumber,
                             initialBalance.GetOr(0), initialBalance.GetOr(0),
                             if currency == "" then DefaultCurrency else currency, now)
        && wallets == old(wallets) + [r.value]
        && nextWalletId == old(nextWalletId) + 1
      ensures r.Err? ==> wallets == old(wallets) && nextWalletId == old(nextWalletId)
    {
      if name == "" || accountNumber == "" {
        return Err(ValidationError);
      }
      var balance := initialBalance.GetOr(0);
      if balance < 0 {
        return Err(ValidationError);
      }
      if AccountTaken(wallets, user, accountNumber) {
        return Err(Conflict);
      }
      var w := Wallet(nextWalletId, user, name, accountNumber, balance, balance,
                      if currency == "" then DefaultCurrency else currency, now);
      if Consistent() {
        NewWalletBalanced(wallets, txs, w);
      }
      wallets := wallets + [w];
      nextWalletId := nextWalletId + 1;
      r := Ok(w);
    }

    /** Update the caller's wallet `id`: each given field is replaced; the
        balances never change. A new account number already used by another of
        the owner's wallets is refused. */
    method UpdateWallet(user: UserId, id: WalletId, name: string, accountNumber: string, currency: string)
      returns (r: Result<Wallet>)
      requires Valid()
      modifies this
      ensures Valid()
      ensures old(Consistent()) ==> Consistent()
      ensures txs == old(txs) && nextTxId == old(nextTxId) && nextWalletId == old(nextWalletId)
      ensures |wallets| == |old(wallets)|
      ensures forall j :: 0 <= j < |wallets| ==>
        && wallets[j].balance == old(wallets)[j].balance
        && wallets[j].initialBalance == old(wallets)[j].initialBalance
      ensures FindWallet(old(wallets), id, user).None? ==> r == Err(NotFound) && wallets == old(wallets)
      ensures FindWallet(old(wallets), id, user).Some? ==>
        var i := FindWallet(old(wallets), id, user).value;
        if accountNumber != "" && AccountTakenByOther(old(wallets), user, accountNumber, i)
        then r == Err(Conflict) && wallets == old(wallets)
        else
          && r == Ok(Renamed(old(wallets)[i], name, accountNumber, currency))
          && wallets == old(wallets)[i := r.value]
    {
      var found := FindWallet(wallets, id, user);
      if found.None? {
        return Err(NotFound);
      }
      var i := found.value;
      if accountNumber != "" && AccountTakenByOther(wallets, user, accountNumber, i) {
        return Err(Conflict);
      }
      var w := Renamed(wallets[i], name, accountNumber, currency);
      if Consistent() {
        UpdateKeepsBalanced(wallets, txs, i, w);
      }
      wallets := wallets[i := w];
      r := Ok(w);
    }

    /** Delete the caller's wallet `id` and every transaction of it. */
    method DeleteWallet(user: UserId, id: WalletId) returns (r: Outcome)
      requires Valid()
      modifies this
      ensures Valid()
      ensures old(Consistent()) ==> Consistent()
      ensures nextTxId == old(nextTxId) && nextWalletId == old(nextWalletId)
      ensures FindWallet(old(wallets), id, user).None? ==>
        r == Fail(NotFound) && wallets == old(wallets) && txs == old(txs)
      ensures FindWallet(old(wallets), id, user).Some? ==>
        var i := FindWallet(old(wallets), id, user).value;
        && r == Pass
        && wallets == old(wallets)[..i] + old(wallets)[i + 1..]
        && txs == Cascade(old(txs), old(wallets)[i])
      ensures FindWallet(old(wallets), id, user).Some? ==>
        forall k :: 0 <= k < |txs| ==> !(txs[k].walletId == id && txs[k].owner == user)
      ensures forall t :: t in old(txs) && !(t.walletId == id && t.owner == user) ==> t in txs
      ensures forall k :: 0 <= k < |txs| ==> txs[k] in old(txs)
    {
      var found := FindWallet(wallets, id, user);
      if found.None? {
        return Fail(NotFound);
      }
      var i := found.value;
      var w := wallets[i];
      if Consistent() {
        CascadeKeepsBalanced(wallets, txs, i);
      }
      WalletsRemoveValid(wallets, nextWalletId, i);
      TxsCascadeValid(txs, nextTxId, nextWalletId, w);
      CascadeMembers(txs, w, id, user);
      txs := Cascade(txs, w);
      wallets := wallets[..i] + wallets[i + 1..];
      r := Pass;
    }

    /** The caller's wallets, oldest first. */
    method ListWallets(user: UserId) returns (r: seq<Wallet>)
      ensures multiset(r) == multiset(OwnedWallets(wallets, user))
      ensures forall i :: 0 <= i < |r| ==> r[i] in wallets && r[i].owner == user
      ensures forall w :: w in wallets && w.owner == user ==> w in r
      ensures forall i, j :: 0 <= i < j < |r| ==> r[i].createdAt <= r[j].createdAt
    {
      var owned := OwnedWallets(wallets, user);
      r := SortBy(owned, (w: Wallet) => w.createdAt);
      forall i | 0 <= i < |r|
        ensures r[i] in owned
      {
        assert r[i] in multiset(r);
      }
      forall w | w in wallets && w.owner == user
        ensures w in r
      {
        assert w in multiset(owned);
      }
    }

    /** Record a transaction: required fields, the caller's wallet, a positive
        amount, enough balance for an expense, a valid type; then append it and
        move only that wallet's balance. */
    method CreateTransaction(user: UserId, req: TxRequest, now: int) returns (r: Result<Tx>)
      requires Valid()
      modifies this
      ensures Valid()
      ensures old(Consistent()) ==> Consistent()
      ensures nextWalletId == old(nextWalletId)
      ensures MissingField(req) ==> r == Err(ValidationError)
      ensures !MissingField(req) && FindWallet(old(wallets), req.walletId.value, user).None? ==> r == Err(NotFound)
      ensures !MissingField(req) && FindWallet(old(wallets), req.walletId.value, user).Some? ==>
        var w := old(wallets)[FindWallet(old(wallets), req.walletId.value, user).value];
        && (req.amount.value < 0 ==> r == Err(ValidationError))
        && (req.amount.value > 0 && req.kind == "expense" && w.balance < req.amount.value ==> r == Err(InsufficientFunds))
        && ((req.amount.value > 0 && !(req.kind == "expense" && w.balance < req.amount.value)
             && ParseType(req.kind).None?) ==> r == Err(ValidationError))
      ensures r.Ok? <==> Admissible(old(wallets), user, req)
      ensures r.Err? ==> wallets == old(wallets) && txs == old(txs) && nextTxId == old(nextTxId)
      ensures r.Ok? ==>
        var i := FindWallet(old(wallets), req.walletId.value, user).value;
        && r.value == Tx(old(nextTxId), user, req.walletId.value, ParseType(req.kind).value,
                         req.amount.value, req.category, req.note, req.occurredAt.GetOr(now))
        && txs == old(txs) + [r.value]
        && nextTxId == old(nextTxId) + 1
        && wallets == old(wallets)[i := old(wallets)[i].(balance := Apply(old(wallets)[i].balance, r.value.kind, r.value.amount))]
    {
      if MissingField(req) {
        return Err(ValidationError);
      }
      var found := FindWallet(wallets, req.walletId.value, user);
      if found.None? {
        return Err(NotFound);
      }
      var i := found.value;
      var value := req.amount.value;
      if value <= 0 {
        return Err(ValidationError);
      }
      if req.kind == "expense" && wallets[i].balance < value {
        return Err(InsufficientFunds);
      }
      var kind := ParseType(req.kind);
      if kind.None? {
        return Err(ValidationError);
      }
      var t := Tx(nextTxId, user, req.walletId.value, kind.value, value, req.category, req.note,
                  req.occurredAt.GetOr(now));
      ApplyKeepsFloor(wallets[i].balance, t.kind, value);
      WalletsSetBalanceValid(wallets, nextWalletId, i, Apply(wallets[i].balance, t.kind, value));
      TxsAppendValid(txs, nextTxId, nextWalletId, t);
      if Consistent() {
        CreateKeepsBalanced(wallets, txs, i, t);
      }
      txs := txs + [t];
      nextTxId := nextTxId + 1;
      wallets := wallets[i := wallets[i].(balance := Apply(wallets[i].balance, t.kind, value))];
      r := Ok(t);
    }

    /** Delete the caller's transaction `id` and reverse it on its wallet,
        floored at 0; a wallet that is gone is left alone. */
    method DeleteTransaction(user: UserId, id: TxId) returns (r: Outcome)
      requires Valid()
      modifies this
      ensures Valid()
      ensures old(Consistent()) && !old(DeleteWouldClamp(user, id)) ==> Consistent()
      ensures nextTxId == old(nextTxId) && nextWalletId == old(nextWalletId)
      ensures FindTx(old(txs), id, user).None? ==>
        r == Fail(NotFound) && wallets == old(wallets) && txs == old(txs)
      ensures FindTx(old(txs), id, user).Some? ==>
        var k := FindTx(old(txs), id, user).value;
        var t := old(txs)[k];
        && r == Pass
        && txs == old(txs)[..k] + old(txs)[k + 1..]
        && (forall j :: 0 <= j < |txs| ==> txs[j].id != id)
        && (FindWallet(old(wallets), t.walletId, user).None? ==> wallets == old(wallets))
        && (FindWallet(old(wallets), t.walletId, user).Some? ==>
              var i := FindWallet(old(wallets), t.walletId, user).value;
              wallets == old(wallets)[i := old(wallets)[i].(balance := Reverse(old(wallets)[i].balance, t.kind, t.amount))])
    {
      var found := FindTx(txs, id, user);
      if found.None? {
        return Fail(NotFound);
      }
      var k := found.value;
      var t := txs[k];
      TxsRemoveValid(txs, nextTxId, nextWalletId, k);
      var owner := FindWallet(wallets, t.walletId, user);
      if owner.Some? {
        var i := owner.value;
        if Consistent() && Unclamped(wallets[i].balance, t.kind, t.amount) >= 0 {
          DeleteKeepsBalanced(wallets, txs, k, i);
        }
        WalletsSetBalanceValid(wallets, nextWalletId, i, Reverse(wallets[i].balance, t.kind, t.amount));
        wallets := wallets[i := wallets[i].(balance := Reverse(wallets[i].balance, t.kind, t.amount))];
      } else if Consistent() {
        DeleteOrphanKeepsBalanced(wallets, txs, k);
      }
      txs := txs[..k] + txs[k + 1..];
      r := Pass;
    }

    /** Recording a transaction and then deleting it leaves both collections
        as they were: the reversal undoes the effect exactly, as the funds
        check keeps the reversal off the floor. */
    method CreateThenDelete(user: UserId, req: TxRequest, now: int) returns (r: Result<Tx>)
      requires Valid()
      modifies this
      ensures Valid()
      ensures wallets == old(wallets) && txs == old(txs)
      ensures nextWalletId == old(nextWalletId)
      ensures nextTxId == old(nextTxId) + (if r.Ok? then 1 else 0)
      ensures r.Ok? <==> Admissible(old(wallets), user, req)
    {
      ghost var ws0, txs0 := wallets, txs;
      r := CreateTransaction(user, req, now);
      if r.Ok? {
        var t := r.value;
        ghost var i := FindWallet(ws0, req.walletId.value, user).value;
        ghost var k := |txs0|;
        assert txs[k] == t;
        assert FindTx(txs, t.id, user) == Some(k) by {
          assert forall j :: 0 <= j < k ==> txs[j].id < t.id by {
            assert forall j :: 0 <= j < k ==> txs[j] == txs0[j];
          }
        }
        assert txs[..k] + txs[k + 1..] == txs0 by {
          assert txs[..k] == txs0;
        }
        FindWalletAfterBalance(ws0, i, wallets[i].balance, t.walletId, user);
        assert t.kind == Expense ==> req.kind == "expense" by {
          assert TypeName(t.kind) == req.kind;
        }
        ReverseUndoesApply(ws0[i].balance, t.kind, t.amount);
        var d := DeleteTransaction(user, t.id);
        assert wallets == ws0;
      }
    }

    /** The caller's transactions matching the query's wallet, type and
        inclusive window, newest first, at most 200 of them and, when more
        match, none left out newer than one returned. */
    method ListTransactions(user: UserId, q: TxQuery) returns (r: seq<Tx>)
      ensures forall i :: 0 <= i < |r| ==> r[i] in txs && ListMatch(r[i], user, q)
      ensures forall i, j :: 0 <= i < j < |r| ==> r[i].occurredAt >= r[j].occurredAt
      ensures |r| == Min(ListCap, |Listable(txs, user, q)|)
      ensures multiset(r) <= multiset(Listable(txs, user, q))
      ensures |Listable(txs, user, q)| <= ListCap ==> multiset(r) == multiset(Listable(txs, user, q))
      ensures forall t :: t in txs && ListMatch(t, user, q) && t !in r ==>
        forall i :: 0 <= i < |r| ==> t.occurredAt <= r[i].occurredAt
    {
      var matching := Listable(txs, user, q);
      r := NewestFirst(matching, ListCap);
      NewestFirstProps(matching, ListCap);
      forall t | t in txs
        ensures t in matching <==> ListMatch(t, user, q)
      {
        FilterMember(txs, t => ListMatch(t, user, q), t);
      }
      forall i | 0 <= i < |r|
        ensures r[i] in txs && ListMatch(r[i], user, q)
      {
        FilterMember(txs, t => ListMatch(t, user, q), r[i]);
      }
    }

    /** The history endpoint: the caller's transactions, optionally of one
        wallet, newest first, at most `limit` (default 50; 0 for all). */
    method TransactionHistory(user: UserId, walletId: Option<WalletId>, limit: Option<nat>) returns (r: seq<Tx>)
      ensures forall i :: 0 <= i < |r| ==> r[i] in txs && InScope(r[i], user, walletId)
      ensures forall i, j :: 0 <= i < j < |r| ==> r[i].occurredAt >= r[j].occurredAt
      ensures var cap := limit.GetOr(DefaultHistoryLimit);
        |r| == if cap == 0 then |HistoryOf(txs, user, walletId)| else Min(cap, |HistoryOf(txs, user, walletId)|)
      ensures multiset(r) <= multiset(HistoryOf(txs, user, walletId))
      ensures forall t :: t in txs && InScope(t, user, walletId) && t !in r ==>
        forall i :: 0 <= i < |r| ==> t.occurredAt <= r[i].occurredAt
    {
      var matching := HistoryOf(txs, user, walletId);
      r := NewestFirst(matching, limit.GetOr(DefaultHistoryLimit));
      NewestFirstProps(matching, limit.GetOr(DefaultHistoryLimit));
      forall t | t in txs
        ensures t in matching <==> InScope(t, user, walletId)
      {
        FilterMember(txs, t => InScope(t, user, walletId), t);
      }
      forall i | 0 <= i < |r|
        ensures r[i] in txs && InScope(r[i], user, walletId)
      {
        FilterMember(txs, t => InScope(t, user, walletId), r[i]);
      }
    }
  }

  /** The floor at 0 is reached through the store's own requests: a wallet
      opened at 0 receives 500 and spends 500, and deleting the income then
      shows 0 while the wallet's log replays to -500. */
  method FloorThroughRequests() returns (l: Ledger)
    ensures l.Valid() && !l.Consistent()
    ensures |l.wallets| == 1 && l.wallets[0].balance == 0 && Replayed(l.wallets[0], l.txs) == -500
  {
    var cash := Wallet(0, 0, "cash", "001", 0, 0, DefaultCurrency, 0);
    l := new Ledger();
    var w := l.CreateWallet(0, "cash", "001", Some(0), "", 0);
    assert w.Ok? by {
      assert !AccountTaken([], 0, "001");
    }
    assert l.wallets == [cash] && l.txs == [] && l.nextTxId == 0;
    var salary := FloorDeposit(l, cash);
    var rent := FloorSpend(l, cash, salary);
    FloorDelete(l, cash, salary, rent);
  }

  method FloorDeposit(l: Ledger, cash: Wallet) returns (salary: Tx)
    requires l.Valid() && l.wallets == [cash] && l.txs == [] && l.nextTxId == 0
    requires cash.id == 0 && cash.owner == 0 && cash.balance == 0
    modifies l
    ensures l.Valid() && l.wallets == [cash.(balance := 500)] && l.txs == [salary] && l.nextTxId == 1
    ensures salary.id == 0 && salary.kind == Income && salary.amount == 500 && Of(salary, cash)
  {
    assert FindWallet(l.wallets, 0, 0) == Some(0) by {
      assert l.wallets[0].id == 0 && l.wallets[0].owner == 0;
    }
    var r := l.CreateTransaction(0, TxRequest(Some(0), "income", Some(500), "salary", "", Some(1)), 1);
    salary := r.value;
  }

  method FloorSpend(l: Ledger, cash: Wallet, salary: Tx) returns (rent: Tx)
    requires l.Valid() && l.wallets == [cash.(balance := 500)] && l.txs == [salary] && l.nextTxId == 1
    requires cash.id == 0 && cash.owner == 0 && cash.balance == 0
    modifies l
    ensures l.Valid() && l.wallets == [cash] && l.txs == [salary, rent]
    ensures rent.id == 1 && rent.kind == Expense && rent.amount == 500 && Of(rent, cash)
  {
    assert FindWallet(l.wallets, 0, 0) == Some(0) by {
      assert l.wallets[0].id == 0 && l.wallets[0].owner == 0;
    }
    var r := l.CreateTransaction(0, TxRequest(Some(0), "expense", Some(500), "rent", "", Some(2)), 2);
    rent := r.value;
  }

  method FloorDelete(l: Ledger, cash: Wallet, salary: Tx, rent: Tx)
    requires l.Valid() && l.wallets == [cash] && l.txs == [salary, rent]
    requires cash.id == 0 && cash.owner == 0 && cash.balance == 0 && cash.initialBalance == 0
    requires salary.id == 0 && salary.kind == Income && salary.amount == 500 && Of(salary, cash)
    requires rent.id == 1 && rent.kind == Expense && rent.amount == 500 && Of(rent, cash)
    modifies l
    ensures l.Valid() && !l.Consistent()
    ensures |l.wallets| == 1 && l.wallets[0].balance == 0 && Replayed(l.wallets[0], l.txs) == -500
  {
    assert FindTx(l.txs, 0, 0) == Some(0) by {
      assert l.txs[0].id == 0 && l.txs[0].owner == 0;
    }
    assert FindWallet(l.wallets, 0, 0) == Some(0) by {
      assert l.wallets[0].id == 0 && l.wallets[0].owner == 0;
    }
    var d := l.DeleteTransaction(0, 0);
    assert l.txs == [rent];
    assert [rent] == [] + [rent];
    NetOfAppend([], rent, 0, 0);
    assert !Balanced(l.wallets[0], l.txs);
  }
}
