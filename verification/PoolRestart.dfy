/** What a restart does to the transaction pool: the mempool is rebuilt from the rows of the storage, in the order in
    which they were inserted. */
module PoolRestart {
  import opened Arithmetic
  import opened SenderPool
  import opened PoolService

  // The rebuilt mempool

  /** The rows offered one after the other to an empty mempool that never gets full. */
  function Reloaded(list: seq<Row>, expired: int, accounts: Address -> Account, env: Env): Senders {
    if list == [] then map[]
    else
      var before, last := Reloaded(list[..|list| - 1], expired, accounts, env), list[|list| - 1];
      if last.blockNumber <= expired then before
      else
        match MempoolAdd(before, last.tx, accounts(last.tx.from), env)
        case Rejected => before
        case Accepted(after, _) => after
  }

  lemma OneMoreFits(before: Senders, list: seq<Row>, rows: map<nat, Row>, row: Row, account: Account, env: Env)
    requires PoolOk(before) && row.tx.hash in rows && rows[row.tx.hash] == row && row !in list
    requires forall x :: x in Pooled(before) ==> x.hash in rows && rows[x.hash] in list
    ensures match MempoolAdd(before, row.tx, account, env)
      case Rejected => true
      case Accepted(after, _) =>
        && PoolOk(after) && |Pooled(after)| <= |Pooled(before)| + 1
        && forall x :: x in Pooled(after) ==> x.hash in rows && rows[x.hash] in list + [row]
  {
    hide MempoolAdd, Pooled, PoolOk, TxSet;
    var added := MempoolAdd(before, row.tx, account, env);
    if added.Accepted? {
      MempoolAddIs(before, row.tx, account, env, added.senders, added.removed);
    }
  }

  lemma FrontInOrder(list: seq<Row>, rows: map<nat, Row>)
    requires InOrder(list, rows) && list != []
    ensures InOrder(list[..|list| - 1], rows) && list[|list| - 1] !in list[..|list| - 1]
    ensures list[|list| - 1].tx.hash in rows && rows[list[|list| - 1].tx.hash] == list[|list| - 1]
  {
  }

  lemma {:induction false} ReloadedFits(list: seq<Row>, rows: map<nat, Row>, expired: int,
                                        accounts: Address -> Account, env: Env)
    requires InOrder(list, rows)
    ensures PoolOk(Reloaded(list, expired, accounts, env))
    ensures |Pooled(Reloaded(list, expired, accounts, env))| <= |list|
    ensures forall x :: x in Pooled(Reloaded(list, expired, accounts, env)) ==> x.hash in rows && rows[x.hash] in list
  {
    hide MempoolAdd;
    if list == [] {
      NothingPooled();
    } else {
      hide Pooled, PoolOk, InOrder;
      FrontInOrder(list, rows);
      var front, last := list[..|list| - 1], list[|list| - 1];
      var before := Reloaded(front, expired, accounts, env);
      ReloadedFits(front, rows, expired, accounts, env);
      assert list == front + [last];
      OneMoreFits(before, front, rows, last, accounts(last.tx.from), env);
    }
  }

  /** While the rows fit into the pool, reloading them has one result. */
  lemma {:induction false} ReloadsOnce(list: seq<Row>, rows: map<nat, Row>, expired: int, accounts: Address -> Account,
                                       env: Env, limit: nat, after: Senders)
    requires InOrder(list, rows) && |list| <= limit && Reloads(list, expired, accounts, env, limit, after)
    ensures after == Reloaded(list, expired, accounts, env)
  {
    hide MempoolAdd, Pooled, PoolOk;
    if list == [] {
    } else {
      var front, last := list[..|list| - 1], list[|list| - 1];
      var before :| Reloads(front, expired, accounts, env, limit, before) &&
                    Offers(before, last, expired, accounts(last.tx.from), env, limit, after);
      ReloadsOnce(front, rows, expired, accounts, env, limit, before);
      ReloadedFits(front, rows, expired, accounts, env);
    }
  }

  // Sender by sender

  function NumberOf(rows: map<nat, Row>, x: Tx): int {
    if x.hash in rows then rows[x.hash].n else 0
  }

  ghost predicate Ascends(txs: seq<Tx>, key: Tx -> int) {
    forall i, j :: 0 <= i < j < |txs| ==> key(txs[i]) < key(txs[j])
  }

  /** The unexpired transactions of a sender in the order of the rows. */
  function Of(list: seq<Row>, a: Address, expired: int): seq<Tx> {
    if list == [] then []
    else
      var front, last := Of(list[..|list| - 1], a, expired), list[|list| - 1];
      if last.tx.from == a && last.blockNumber > expired then front + [last.tx] else front
  }

  ghost predicate ComesFrom(list: seq<Row>, i: nat, x: Tx, a: Address, expired: int)
    requires i < |list|
  {
    list[i].tx == x && x.from == a && !IsExpired(list[i], expired)
  }

  lemma {:induction false} OfFrom(list: seq<Row>, a: Address, expired: int)
    ensures forall x :: x in Of(list, a, expired) ==> exists i :: 0 <= i < |list| && ComesFrom(list, i, x, a, expired)
  {
    if list == [] {
    } else {
      var front := list[..|list| - 1];
      OfFrom(front, a, expired);
      forall x | x in Of(list, a, expired) ensures exists i :: 0 <= i < |list| && ComesFrom(list, i, x, a, expired) {
        if x in Of(front, a, expired) {
          var i :| 0 <= i < |front| && ComesFrom(front, i, x, a, expired);
          assert ComesFrom(list, i, x, a, expired);
        } else {
          assert ComesFrom(list, |list| - 1, x, a, expired);
        }
      }
    }
  }

  lemma {:induction false} OfHas(list: seq<Row>, a: Address, expired: int, row: Row)
    requires row in list && row.tx.from == a && !IsExpired(row, expired)
    ensures row.tx in Of(list, a, expired)
  {
    if row == list[|list| - 1] {
    } else {
      OfHas(list[..|list| - 1], a, expired, row);
    }
  }

  lemma FoundInRows(list: seq<Row>, rows: map<nat, Row>, a: Address, expired: int)
    requires InOrder(list, rows)
    ensures forall x :: x in Of(list, a, expired) ==>
      x.hash in rows && rows[x.hash].tx == x && rows[x.hash] in list && x.from == a && !IsExpired(rows[x.hash], expired)
  {
    OfFrom(list, a, expired);
    hide Of;
    forall x | x in Of(list, a, expired)
      ensures x.hash in rows && rows[x.hash].tx == x && rows[x.hash] in list && x.from == a
      ensures !IsExpired(rows[x.hash], expired)
    {
      var i :| 0 <= i < |list| && ComesFrom(list, i, x, a, expired);
      assert rows[list[i].tx.hash] == list[i];
    }
  }

  lemma {:induction false} OfAscends(list: seq<Row>, rows: map<nat, Row>, a: Address, expired: int)
    requires InOrder(list, rows)
    ensures Ascends(Of(list, a, expired), x => NumberOf(rows, x))
  {
    if list == [] {
    } else {
      var front, last := list[..|list| - 1], list[|list| - 1];
      assert InOrder(front, rows);
      OfAscends(front, rows, a, expired);
      FoundInRows(front, rows, a, expired);
      forall row | row in front ensures row.n < last.n {
      }
      forall x | x in Of(front, a, expired) ensures NumberOf(rows, x) < NumberOf(rows, last.tx) {
        assert rows[x.hash] in front && rows[last.tx.hash] == last;
      }
    }
  }

  /** A transaction whose nonce is not pooled replaces nothing. */
  lemma NoTwinNoReplacement(s: Sender, tx: Tx, env: Env)
    requires Chained(s) && forall x :: x in s.txs ==> x.nonce != tx.nonce
    ensures Replace(s, tx, env).Failed? || Replace(s, tx, env).removed == []
    ensures Replace(s, tx, env).Failed? ==> !Admits(s, tx, env)
  {
    FirstAtLeastIs(s, tx.nonce, |s.txs|);
    assert s.txs[..|s.txs|] == s.txs;
    var index := FirstAtLeast(s.txs, tx.nonce);
    assert index < |s.txs| ==> s.txs[index] in s.txs;
  }

  lemma AddedSender(before: Senders, tx: Tx, account: Account, env: Env, t: Sender)
    requires t == SenderOrFresh(before, tx.from, account)
    requires Chained(t) && t.account == account && forall x :: x in t.txs ==> x.nonce != tx.nonce
    ensures match MempoolAdd(before, tx, account, env)
      case Rejected => !Admits(t, tx, env)
      case Accepted(after, removed) => Admits(t, tx, env) && after == before[tx.from := Add(t, tx)] && removed == []
  {
    hide Replace, Admits;
    NoTwinNoReplacement(t, tx, env);
  }

  lemma {:induction false} AddedFrom(s: Sender, txs: seq<Tx>, env: Env)
    ensures forall x :: x in AddEach(s, txs, env).0.txs ==> x in s.txs || x in txs
    decreases |txs|
  {
    if txs == [] {
    } else {
      AddedFrom(s, txs[..|txs| - 1], env);
      assert txs == txs[..|txs| - 1] + [txs[|txs| - 1]];
    }
  }

  /** While the nonces of a sender differ, offering its transactions in the order of the rows is re-adding them in that
      order. */
  lemma {:induction false} SenderReloaded(list: seq<Row>, expired: int, accounts: Address -> Account, env: Env,
                                          a: Address)
    requires forall i, j :: 0 <= i < j < |list| && list[i].tx.from == list[j].tx.from ==>
      list[i].tx.nonce != list[j].tx.nonce
    ensures SenderOrFresh(Reloaded(list, expired, accounts, env), a, accounts(a)) ==
      AddEach(Fresh(accounts(a)), Of(list, a, expired), env).0
  {
    hide MempoolAdd, Admits;
    if list == [] {
    } else {
      var front, last := list[..|list| - 1], list[|list| - 1];
      var b := last.tx.from;
      SenderReloaded(front, expired, accounts, env, a);
      SenderReloaded(front, expired, accounts, env, b);
      var before, account := Reloaded(front, expired, accounts, env), accounts(b);
      TotalCostOfNone();
      AddEachKeeps(Fresh(account), Of(front, b, expired), env);
      AddedFrom(Fresh(account), Of(front, b, expired), env);
      OfFrom(front, b, expired);
      AddedSender(before, last.tx, account, env, SenderOrFresh(before, b, account));
      if a == b && !IsExpired(last, expired) {
        assert Of(list, a, expired)[..|Of(list, a, expired)| - 1] == Of(front, a, expired);
      }
    }
  }

  // When a restart brings the pool back

  lemma FrontElements(xs: seq<Tx>, key: Tx -> int)
    requires xs != [] && Ascends(xs, key)
    ensures TxSet(xs[..|xs| - 1]) == TxSet(xs) - {xs[|xs| - 1]}
  {
    var front, last := xs[..|xs| - 1], xs[|xs| - 1];
    assert xs == front + [last];
  }

  lemma {:induction false} SortedOnce(xs: seq<Tx>, ys: seq<Tx>, key: Tx -> int)
    requires Ascends(xs, key) && Ascends(ys, key) && TxSet(xs) == TxSet(ys)
    ensures xs == ys
  {
    assert xs != [] ==> xs[|xs| - 1] in TxSet(ys);
    assert ys != [] ==> ys[|ys| - 1] in TxSet(xs);
    if xs == [] {
    } else {
      var x, y := xs[|xs| - 1], ys[|ys| - 1];
      var k :| 0 <= k < |ys| && ys[k] == x;
      var m :| 0 <= m < |xs| && xs[m] == y;
      assert x == y;
      FrontElements(xs, key);
      FrontElements(ys, key);
      SortedOnce(xs[..|xs| - 1], ys[..|ys| - 1], key);
    }
  }

  lemma {:induction false} KeepsAll(s: Sender, txs: seq<Tx>, env: Env)
    requires AddEach(s, txs, env).1 == []
    ensures AddEach(s, txs, env).0.txs == s.txs + txs
    decreases |txs|
  {
    if txs == [] {
    } else {
      KeepsAll(s, txs[..|txs| - 1], env);
      assert txs == txs[..|txs| - 1] + [txs[|txs| - 1]];
    }
  }

  /** Where nothing is dropped, the chain is what was offered, so nonces ascend. */
  lemma {:induction false} AllKept(account: Account, txs: seq<Tx>, env: Env)
    requires AddEach(Fresh(account), txs, env).1 == []
    ensures AddEach(Fresh(account), txs, env).0.txs == txs && Ascends(txs, (x: Tx) => x.nonce)
  {
    TotalCostOfNone();
    AddEachKeeps(Fresh(account), txs, env);
    KeepsAll(Fresh(account), txs, env);
  }

  /** If everything offered is kept, nothing is dropped. */
  lemma NothingDropped(account: Account, txs: seq<Tx>, env: Env, key: Tx -> int)
    requires Ascends(txs, key) && TxSet(txs) <= TxSet(AddEach(Fresh(account), txs, env).0.txs)
    ensures AddEach(Fresh(account), txs, env).1 == []
  {
    hide AddEach;
    AddEachConserves(Fresh(account), txs, env);
    var kept, removed := AddEach(Fresh(account), txs, env).0.txs, AddEach(Fresh(account), txs, env).1;
    CountDistinct(txs);
    assert multiset([]) + multiset(txs) == multiset(txs);
    TotalCostOfNone();
    AddEachKeeps(Fresh(account), txs, env);
    ChainCount(AddEach(Fresh(account), txs, env).0);
    SubsetCount(TxSet(txs), TxSet(kept));
    assert |multiset(txs)| == |multiset(kept)| + |multiset(removed)|;
  }

  /** The rows of a chain stand in its order, and re-adding the chain to the account drops nothing. */
  ghost predicate ComesBack(txs: seq<Tx>, rows: map<nat, Row>, account: Account, env: Env) {
    Ascends(txs, x => NumberOf(rows, x)) && AddEach(Fresh(account), txs, env).1 == []
  }

  ghost predicate AllComeBack(senders: Senders, rows: map<nat, Row>, expired: int, accounts: Address -> Account,
                              env: Env) {
    NoneExpired(rows, expired) && forall a :: a in senders ==> ComesBack(senders[a].txs, rows, accounts(a), env)
  }

  lemma NoneInside(txs: seq<Tx>)
    ensures txs != [] ==> TxSet(txs) != {}
  {
    assert txs == [] || txs[0] in TxSet(txs);
  }

  lemma PooledOf(senders: Senders, x: Tx)
    requires PoolOk(senders)
    ensures x in Pooled(senders) <==> x.from in senders && x in senders[x.from].txs
  {
    if x in Pooled(senders) {
      var a :| a in senders && x in senders[a].txs;
      assert SenderOk(a, senders[a]);
    }
  }

  lemma ChainFrom(senders: Senders, a: Address, x: Tx)
    requires PoolOk(senders) && a in senders && x in senders[a].txs
    ensures x.from == a && x in Pooled(senders)
  {
    assert SenderOk(a, senders[a]);
  }

  /** The rows of a sender are its chain, in their own order. */
  lemma RowsOfSender(senders: Senders, rows: map<nat, Row>, list: seq<Row>, a: Address, expired: int)
    requires PoolOk(senders) && Mirrors(senders, rows, {}) && Lists(list, rows) && NoneExpired(rows, expired)
    ensures TxSet(Of(list, a, expired)) == if a in senders then TxSet(senders[a].txs) else {}
    ensures Ascends(Of(list, a, expired), x => NumberOf(rows, x))
  {
    RowsPointwise(rows);
    FoundInRows(list, rows, a, expired);
    OfAscends(list, rows, a, expired);
    hide Of, Pooled, Stored, PoolOk;
    forall x ensures x in Of(list, a, expired) <==> a in senders && x in senders[a].txs {
      PooledOf(senders, x);
      if a in senders && x in senders[a].txs {
        ChainFrom(senders, a, x);
        OfHas(list, a, expired, rows[x.hash]);
      }
    }
  }

  lemma ChainAscends(senders: Senders, a: Address)
    requires PoolOk(senders) && a in senders
    ensures Ascends(senders[a].txs, (x: Tx) => x.nonce)
  {
    assert SenderOk(a, senders[a]);
  }

  /** The rows of a sender are offered as its chain if and only if its chain ascends in row numbers. */
  lemma OfIsChain(senders: Senders, rows: map<nat, Row>, list: seq<Row>, a: Address, expired: int)
    requires PoolOk(senders) && Mirrors(senders, rows, {}) && Lists(list, rows) && NoneExpired(rows, expired)
    requires a in senders
    ensures Of(list, a, expired) == senders[a].txs <==> Ascends(senders[a].txs, x => NumberOf(rows, x))
  {
    RowsOfSender(senders, rows, list, a, expired);
    hide Of, PoolOk, Mirrors, Lists;
    if Ascends(senders[a].txs, x => NumberOf(rows, x)) {
      SortedOnce(Of(list, a, expired), senders[a].txs, x => NumberOf(rows, x));
    }
  }

  lemma NoncesOfTwo(senders: Senders, x: Tx, y: Tx)
    requires PoolOk(senders) && x in Pooled(senders) && y in Pooled(senders) && x != y && x.from == y.from
    ensures x.nonce != y.nonce
  {
    PooledOf(senders, x);
    PooledOf(senders, y);
    assert SenderOk(x.from, senders[x.from]);
  }

  lemma NoncesDiffer(senders: Senders, rows: map<nat, Row>, list: seq<Row>)
    requires PoolOk(senders) && Mirrors(senders, rows, {}) && Lists(list, rows)
    ensures forall i, j :: 0 <= i < j < |list| && list[i].tx.from == list[j].tx.from ==>
      list[i].tx.nonce != list[j].tx.nonce
  {
    RowsPointwise(rows);
    hide Pooled, Stored, PoolOk;
    forall i, j | 0 <= i < j < |list| && list[i].tx.from == list[j].tx.from
      ensures list[i].tx.nonce != list[j].tx.nonce
    {
      assert list[i].n < list[j].n;
      NoncesOfTwo(senders, list[i].tx, list[j].tx);
    }
  }

  lemma ReloadedChain(senders: Senders, rows: map<nat, Row>, list: seq<Row>, expired: int, accounts: Address -> Account,
                      env: Env, a: Address)
    requires PoolOk(senders) && Mirrors(senders, rows, {}) && Lists(list, rows)
    ensures SenderOrFresh(Reloaded(list, expired, accounts, env), a, accounts(a)) ==
      AddEach(Fresh(accounts(a)), Of(list, a, expired), env).0
    ensures PoolOk(Reloaded(list, expired, accounts, env))
  {
    hide Reloaded, AddEach, Of, Mirrors, PoolOk;
    NoncesDiffer(senders, rows, list);
    ReloadedFits(list, rows, expired, accounts, env);
    SenderReloaded(list, expired, accounts, env, a);
  }

  /** If a chain comes back, its sender has it again. */
  lemma BroughtBack(senders: Senders, rows: map<nat, Row>, list: seq<Row>, expired: int, accounts: Address -> Account,
                    env: Env, a: Address)
    requires PoolOk(senders) && Mirrors(senders, rows, {}) && Lists(list, rows) && NoneExpired(rows, expired)
    requires a in senders ==> ComesBack(senders[a].txs, rows, accounts(a), env)
    ensures SenderOrFresh(Reloaded(list, expired, accounts, env), a, accounts(a)).txs ==
      if a in senders then senders[a].txs else []
  {
    hide Reloaded, Of, Mirrors, PoolOk, Lists;
    ReloadedChain(senders, rows, list, expired, accounts, env, a);
    if a in senders {
      OfIsChain(senders, rows, list, a, expired);
      AllKept(accounts(a), senders[a].txs, env);
    } else {
      RowsOfSender(senders, rows, list, a, expired);
      NoneInside(Of(list, a, expired));
    }
  }

  /** If a sender has all its transactions again, its chain came back. */
  lemma CameBack(senders: Senders, rows: map<nat, Row>, list: seq<Row>, expired: int, accounts: Address -> Account,
                 env: Env, a: Address)
    requires PoolOk(senders) && Mirrors(senders, rows, {}) && Lists(list, rows) && NoneExpired(rows, expired)
    requires a in senders
    requires TxSet(senders[a].txs) <= TxSet(SenderOrFresh(Reloaded(list, expired, accounts, env), a, accounts(a)).txs)
    ensures ComesBack(senders[a].txs, rows, accounts(a), env)
  {
    hide Reloaded, Of, Mirrors, PoolOk, Lists, AddEach;
    ReloadedChain(senders, rows, list, expired, accounts, env, a);
    RowsOfSender(senders, rows, list, a, expired);
    var offered := Of(list, a, expired);
    NothingDropped(accounts(a), offered, env, x => NumberOf(rows, x));
    AllKept(accounts(a), offered, env);
    ChainAscends(senders, a);
    SortedOnce(offered, senders[a].txs, (x: Tx) => x.nonce);
  }

  lemma HasItsOwn(senders: Senders, after: Senders, a: Address, account: Account)
    requires PoolOk(senders) && PoolOk(after) && Pooled(after) == Pooled(senders) && a in senders
    ensures TxSet(senders[a].txs) <= TxSet(SenderOrFresh(after, a, account).txs)
  {
    hide Pooled, PoolOk;
    forall x | x in senders[a].txs ensures x in SenderOrFresh(after, a, account).txs {
      ChainFrom(senders, a, x);
      PooledOf(after, x);
    }
  }

  /** Expired rows do not come back. */
  lemma OnlyFreshReload(senders: Senders, rows: map<nat, Row>, list: seq<Row>, expired: int,
                        accounts: Address -> Account, env: Env)
    requires PoolOk(senders) && Mirrors(senders, rows, {}) && Lists(list, rows)
    requires Pooled(Reloaded(list, expired, accounts, env)) == Pooled(senders)
    ensures NoneExpired(rows, expired) && PoolOk(Reloaded(list, expired, accounts, env))
  {
    hide Reloaded, Of, PoolOk, AddEach, Pooled, Stored;
    RowsPointwise(rows);
    ReloadedFits(list, rows, expired, accounts, env);
    var after := Reloaded(list, expired, accounts, env);
    forall h | h in rows ensures !IsExpired(rows[h], expired) {
      var x := rows[h].tx;
      assert x in Pooled(after);
      PooledOf(after, x);
      ReloadedChain(senders, rows, list, expired, accounts, env, x.from);
      AddedFrom(Fresh(accounts(x.from)), Of(list, x.from, expired), env);
      FoundInRows(list, rows, x.from, expired);
    }
  }

  /** A restart brings exactly the pooled transactions back if and only if none of them is expired, the rows of every
      sender stand in the order of its chain, and every chain can still be added to its account. */
  lemma RestartRestores(senders: Senders, rows: map<nat, Row>, list: seq<Row>, expired: int,
                        accounts: Address -> Account, env: Env)
    requires PoolOk(senders) && Mirrors(senders, rows, {}) && Lists(list, rows)
    ensures Pooled(Reloaded(list, expired, accounts, env)) == Pooled(senders) <==>
      AllComeBack(senders, rows, expired, accounts, env)
  {
    hide Reloaded, Of, Mirrors, PoolOk, Lists, AddEach, Pooled, ComesBack;
    var after := Reloaded(list, expired, accounts, env);
    if Pooled(after) == Pooled(senders) {
      OnlyFreshReload(senders, rows, list, expired, accounts, env);
      forall a | a in senders ensures ComesBack(senders[a].txs, rows, accounts(a), env) {
        HasItsOwn(senders, after, a, accounts(a));
        CameBack(senders, rows, list, expired, accounts, env, a);
      }
    }
    if AllComeBack(senders, rows, expired, accounts, env) {
      forall x ensures x in Pooled(after) <==> x in Pooled(senders) {
        ReloadedChain(senders, rows, list, expired, accounts, env, x.from);
        BroughtBack(senders, rows, list, expired, accounts, env, x.from);
        PooledOf(after, x);
        PooledOf(senders, x);
      }
    }
  }

  lemma ListCount(senders: Senders, rows: map<nat, Row>, list: seq<Row>)
    requires Mirrors(senders, rows, {}) && Lists(list, rows)
    ensures |list| <= |Pooled(senders)|
  {
    RowsPointwise(rows);
    hide Pooled, Stored;
    var txs := seq(|list|, i requires 0 <= i < |list| => list[i].tx);
    forall i, j | 0 <= i < j < |txs| ensures txs[i] != txs[j] {
      assert list[i].n < list[j].n;
    }
    CountDistinct(txs);
    SubsetCount(TxSet(txs), Pooled(senders));
  }

  lemma ListsInOrder(list: seq<Row>, rows: map<nat, Row>)
    requires Lists(list, rows)
    ensures InOrder(list, rows)
  {
  }

  /** The pool is the same after a restart if and only if everything in it comes back; nothing else gets in. */
  method Restart(pool: Service, blockNumber: int, accounts: Address -> Account, env: Env)
    requires pool.Valid()
    modifies pool
    ensures pool.Valid() && Pooled(pool.senders) <= old(Pooled(pool.senders))
    ensures Pooled(pool.senders) == old(Pooled(pool.senders)) <==>
      AllComeBack(old(pool.senders), old(pool.rows), blockNumber - pool.maxTransactionAge, accounts, env)
  {
    hide Reloads, Reloaded, Pooled, Stored, Lists, AllComeBack, PoolOk, Numbered;
    ghost var senders, rows, expired := pool.senders, pool.rows, blockNumber - pool.maxTransactionAge;
    ghost var list := pool.ReAddTransactions(blockNumber, accounts, env);
    ListCount(senders, rows, list);
    ListsInOrder(list, rows);
    ReloadsOnce(list, rows, expired, accounts, env, pool.maxTransactionsInPool, pool.senders);
    RestartRestores(senders, rows, list, expired, accounts, env);
  }

  // Replacing in place

  lemma BehindItsFollower(txs: seq<Tx>, rows: map<nat, Row>, rows': map<nat, Row>, row: Row, index: nat,
                          account: Account, env: Env)
    requires Numbered(rows, row.n) && index < |txs| - 1 && txs[index] == row.tx
    requires row.tx.hash in rows' && rows'[row.tx.hash] == row
    requires var h := txs[index + 1].hash;
      h in rows' ==> h in rows && rows'[h] == rows[h]
    ensures !ComesBack(txs, rows', account, env)
  {
    assert NumberOf(rows', txs[index]) == row.n && NumberOf(rows', txs[index + 1]) <= row.n;
  }

  /** A better paying transaction that the sender can pay for and that has `index` transactions before it. */
  predicate ReplacesInPlace(senders: Senders, tx: Tx, env: Env, index: nat) {
    && tx.from in senders
    && var s := senders[tx.from];
    && index < |s.txs| && index == tx.nonce - s.account.nonce
    && tx.gasPrice > s.txs[index].gasPrice && Cost(tx) <= s.balance + Cost(s.txs[index])
    && tx.size <= env.maxTransactionBytes && (tx.network == 0 || tx.network == env.chainId) && env.preverify(tx)
  }

  lemma ReplacedByMempool(senders: Senders, tx: Tx, account: Account, env: Env, index: nat)
    requires PoolOk(senders) && ReplacesInPlace(senders, tx, env, index)
    ensures var result := MempoolAdd(senders, tx, account, env);
      && result.Accepted? && result.removed == [senders[tx.from].txs[index]]
      && result.senders.Keys == senders.Keys && result.senders[tx.from].txs == senders[tx.from].txs[index := tx]
  {
    assert SenderOk(tx.from, senders[tx.from]);
    ReplaceInPlace(senders[tx.from], tx, env, index);
    hide Replace, Cost;
  }

  lemma StillStored(senders: Senders, rows: map<nat, Row>, row: Row, same: Tx, a: Address)
    requires PoolOk(senders) && Mirrors(senders, rows, {}) && row.tx.hash !in rows
    requires a in senders && same in senders[a].txs
    ensures var rows' := rows[row.tx.hash := row] - Hashes(TxSet([same]));
      && row.tx.hash in rows' && rows'[row.tx.hash] == row
      && forall h :: h in rows' && h != row.tx.hash ==> h in rows && rows'[h] == rows[h]
  {
    ChainFrom(senders, a, same);
    RowsPointwise(rows);
    hide Pooled, Stored, PoolOk;
    assert same in Stored(rows);
    assert Hashes(TxSet([same])) == {same.hash};
  }

  lemma FollowerIsOther(senders: Senders, rows: map<nat, Row>, a: Address, follower: Tx, hash: nat)
    requires PoolOk(senders) && Mirrors(senders, rows, {}) && hash !in rows
    requires a in senders && follower in senders[a].txs
    ensures follower.hash != hash
  {
    ChainFrom(senders, a, follower);
    RowsPointwise(rows);
    hide Pooled, Stored, PoolOk;
    assert follower in Stored(rows);
  }

  /** Whenever a transaction with followers is replaced in place, its row comes behind theirs: the pool is such that no
      restart brings all of it back. */
  lemma ReplacementBreaksOrder(senders: Senders, rows: map<nat, Row>, row: Row, account: Account, env: Env, index: nat,
                               expired: int, accounts: Address -> Account, later: Env)
    requires PoolOk(senders) && Mirrors(senders, rows, {}) && Numbered(rows, row.n) && row.tx.hash !in rows
    requires ReplacesInPlace(senders, row.tx, env, index) && index < |senders[row.tx.from].txs| - 1
    ensures var result := MempoolAdd(senders, row.tx, account, env);
      && result.Accepted?
      && !AllComeBack(result.senders, rows[row.tx.hash := row] - Hashes(TxSet(result.removed)), expired, accounts,
                      later)
  {
    hide Pooled, Stored, MempoolAdd, ComesBack, Numbered, Cost, Mirrors;
    var tx, txs := row.tx, senders[row.tx.from].txs;
    ReplacedByMempool(senders, tx, account, env, index);
    var same, follower := txs[index], txs[index + 1];
    assert same in txs && follower in txs;
    StillStored(senders, rows, row, same, tx.from);
    FollowerIsOther(senders, rows, tx.from, follower, tx.hash);
    hide Hashes, TxSet, PoolOk;
    BehindItsFollower(txs[index := tx], rows, rows[tx.hash := row] - Hashes(TxSet([same])), row, index,
                      accounts(tx.from), later);
  }

  const RICH := Account(0, 1000)
  const SECOND := Tx(2, 5, 1, 1, 10, 0, 10, 0)
  const BETTER := Tx(3, 5, 0, 2, 10, 0, 10, 0)

  const ONE := Add(Fresh(RICH), CHEAP)
  const TWO := Add(ONE, SECOND)

  lemma CostOfFirst()
    ensures Cost(CHEAP) == 10
  {
  }

  lemma CostOfSecond()
    ensures Cost(SECOND) == 10
  {
  }

  lemma CostOfBetter()
    ensures Cost(BETTER) == 20
  {
  }

  lemma FirstEnters()
    ensures Chained(ONE) && ONE.nonce == 1 && ONE.balance == 990 && ONE.txs == [CHEAP]
    ensures MempoolAdd(map[], CHEAP, RICH, OPEN) == Accepted(map[5 := ONE], [])
  {
    CostOfFirst();
    TotalCostOfNone();
    hide MempoolAdd, Replace, TotalCost, Cost;
    AddKeeps(Fresh(RICH), CHEAP, OPEN);
    AddedSender(map[], CHEAP, RICH, OPEN, Fresh(RICH));
  }

  lemma SecondEnters()
    ensures Chained(TWO) && TWO.balance == 980 && TWO.txs == [CHEAP, SECOND]
    ensures MempoolAdd(map[5 := ONE], SECOND, RICH, OPEN) == Accepted(map[5 := TWO], [])
  {
    CostOfSecond();
    FirstEnters();
    hide MempoolAdd, Replace, TotalCost, Cost, Chained;
    AddKeeps(ONE, SECOND, OPEN);
    AddedSender(map[5 := ONE], SECOND, RICH, OPEN, ONE);
    assert map[5 := ONE][5 := TWO] == map[5 := TWO];
  }

  lemma BetterReplaces()
    ensures ReplacesInPlace(map[5 := TWO], BETTER, OPEN, 0)
  {
    CostOfFirst();
    CostOfBetter();
    SecondEnters();
    hide Cost;
  }

  lemma PooledOfOne(senders: Senders, txs: seq<Tx>)
    requires senders.Keys == {5} && senders[5].txs == txs
    ensures Pooled(senders) == TxSet(txs)
  {
  }

  lemma {:induction false} AtMost(txs: seq<Tx>)
    ensures |TxSet(txs)| <= |txs|
  {
    if txs == [] {
    } else {
      AtMost(txs[1..]);
      assert txs == [txs[0]] + txs[1..];
      assert TxSet(txs) == {txs[0]} + TxSet(txs[1..]);
    }
  }

  /** Offered first, the follower is refused. */
  lemma OnlyBetterIsAdded()
    ensures AddEach(Fresh(RICH), [SECOND, BETTER], OPEN).0.txs == [BETTER]
  {
    assert [SECOND, BETTER][..1] == [SECOND] && [SECOND][..0] == [];
    assert AddEach(Fresh(RICH), [SECOND], OPEN).0 == Fresh(RICH);
  }

  lemma OnlyBetterReturns(senders: Senders, rows: map<nat, Row>, list: seq<Row>, expired: int)
    requires PoolOk(senders) && Mirrors(senders, rows, {}) && Lists(list, rows) && NoneExpired(rows, expired)
    requires senders.Keys == {5} && senders[5].txs == [BETTER, SECOND]
    requires NumberOf(rows, SECOND) < NumberOf(rows, BETTER)
    ensures Pooled(Reloaded(list, expired, _ => RICH, OPEN)) == {BETTER}
  {
    hide Reloaded, Of, Mirrors, PoolOk, Lists, AddEach, Pooled;
    var after := Reloaded(list, expired, _ => RICH, OPEN);
    RowsOfSender(senders, rows, list, 5, expired);
    assert TxSet([BETTER, SECOND]) == TxSet([SECOND, BETTER]);
    SortedOnce(Of(list, 5, expired), [SECOND, BETTER], x => NumberOf(rows, x));
    OnlyBetterIsAdded();
    forall x ensures x in Pooled(after) <==> x == BETTER {
      ReloadedChain(senders, rows, list, expired, _ => RICH, OPEN, x.from);
      PooledOf(after, x);
      RowsOfSender(senders, rows, list, x.from, expired);
      if x.from != 5 {
        NoneInside(Of(list, x.from, expired));
        AddedFrom(Fresh(RICH), Of(list, x.from, expired), OPEN);
      }
    }
  }

  lemma RowsStay(rows: map<nat, Row>)
    ensures rows - Hashes(TxSet([])) == rows
  {
    assert Hashes(TxSet([])) == {};
  }

  const TWO_ROWS: map<nat, Row> := map[1 := Row(0, 1, CHEAP), 2 := Row(1, 1, SECOND)]

  lemma RowsAfterReplacement()
    ensures var rows := TWO_ROWS[3 := Row(2, 1, BETTER)] - Hashes(TxSet([CHEAP]));
      NumberOf(rows, SECOND) < NumberOf(rows, BETTER) && NoneExpired(rows, -98)
  {
    assert Hashes(TxSet([CHEAP])) == {1};
  }

  lemma BetterEnters()
    ensures |Pooled(map[5 := TWO])| < 10
    ensures var result := MempoolAdd(map[5 := TWO], BETTER, RICH, OPEN);
      && result.Accepted? && result.removed == [CHEAP]
      && result.senders.Keys == {5} && result.senders[5].txs == [BETTER, SECOND]
  {
    hide Pooled, MempoolAdd, ReplacesInPlace, Cost, Chained, Add, TxSet;
    SecondEnters();
    PooledOfOne(map[5 := TWO], [CHEAP, SECOND]);
    AtMost([CHEAP, SECOND]);
    BetterReplaces();
    ReplacedByMempool(map[5 := TWO], BETTER, RICH, OPEN, 0);
  }

  method EnterTwo(pool: Service)
    requires pool.Valid() && pool.maxTransactionsInPool == 10 && pool.maxTransactionAge == 100
    requires pool.senders == map[] && pool.rows == map[] && pool.next == 0
    modifies pool
    ensures pool.Valid() && pool.senders == map[5 := TWO] && pool.next == 2
    ensures pool.rows == TWO_ROWS
  {
    hide Pooled, MempoolAdd, Stored, PoolOk, Mirrors, Numbered, Hashes, TxSet, Cost, Chained, Add, CleanedUp, Resolves;
    FirstEnters();
    SecondEnters();
    NothingPooled();
    var ok, cleaned := pool.AddTransaction(CHEAP, 1, RICH, OPEN);
    DecidesAlone(cleaned, map[], map[], CHEAP, RICH, OPEN, -99, 10, ok, pool.senders);
    RowsStay(map[1 := Row(0, 1, CHEAP)]);
    PooledOfOne(pool.senders, [CHEAP]);
    AtMost([CHEAP]);
    ok, cleaned := pool.AddTransaction(SECOND, 1, RICH, OPEN);
    DecidesAlone(cleaned, map[5 := ONE], map[1 := Row(0, 1, CHEAP)], SECOND, RICH, OPEN, -99, 10, ok, pool.senders);
    RowsStay(map[1 := Row(0, 1, CHEAP), 2 := Row(1, 1, SECOND)]);
  }

  /** Two transactions of one sender enter an empty pool, and the first one is replaced by one that pays more. */
  method ReplaceFirst(pool: Service)
    requires pool.Valid() && pool.maxTransactionsInPool == 10 && pool.maxTransactionAge == 100
    requires pool.senders == map[] && pool.rows == map[] && pool.next == 0
    modifies pool
    ensures pool.Valid() && MempoolAdd(map[5 := TWO], BETTER, RICH, OPEN) == Accepted(pool.senders, [CHEAP])
    ensures pool.rows == TWO_ROWS[3 := Row(2, 1, BETTER)] - Hashes(TxSet([CHEAP]))
  {
    EnterTwo(pool);
    hide Pooled, MempoolAdd, Stored, PoolOk, Mirrors, Numbered, Hashes, TxSet, Cost, Chained, Add, CleanedUp, Resolves;
    BetterEnters();
    var ok, cleaned := pool.AddTransaction(BETTER, 1, RICH, OPEN);
    DecidesAlone(cleaned, map[5 := TWO], TWO_ROWS, BETTER, RICH, OPEN, -99, 10, ok, pool.senders);
  }

  /** After a restart the second one is gone. */
  method RestartLosesFollower() returns (before: set<Tx>, after: set<Tx>)
    ensures before == {BETTER, SECOND} && after == {BETTER}
  {
    hide Pooled, Reloads, Reloaded, Stored, PoolOk, Lists, Numbered, MempoolAdd, Hashes, Cost, Add, NumberOf,
         NoneExpired;
    var pool := new Service(10, 100);
    ReplaceFirst(pool);
    BetterEnters();
    RowsAfterReplacement();
    PooledOfOne(pool.senders, [BETTER, SECOND]);
    before := Pooled(pool.senders);
    ghost var senders, rows := pool.senders, pool.rows;
    ghost var list := pool.ReAddTransactions(2, _ => RICH, OPEN);
    ListCount(senders, rows, list);
    ListsInOrder(list, rows);
    ReloadsOnce(list, rows, -98, _ => RICH, OPEN, 10, pool.senders);
    OnlyBetterReturns(senders, rows, list, -98);
    after := Pooled(pool.senders);
  }
}
