/** The transaction pool: `Mempool` groups the transactions by sender, `Service` mirrors them in its storage, evicts
    old and cheap ones and keeps the pool within its limit. Public calls run one at a time. */
module PoolService {
  import opened Arithmetic
  import opened SenderPool

  type Senders = map<Address, Sender>

  /** A stored transaction with the number of its row and the block number it entered at. Rows are keyed by transaction
      hash. */
  datatype Row = Row(n: nat, blockNumber: int, tx: Tx)

  function TxSet(txs: seq<Tx>): set<Tx> {
    set x | x in txs
  }

  /** Every transaction some sender has in the pool. */
  function Pooled(senders: Senders): set<Tx> {
    set a, x | a in senders && x in senders[a].txs :: x
  }

  function Stored(rows: map<nat, Row>): set<Tx> {
    set h | h in rows :: rows[h].tx
  }

  ghost predicate SenderOk(a: Address, s: Sender) {
    Chained(s) && s.txs != [] && forall x :: x in s.txs ==> x.from == a
  }

  ghost predicate PoolOk(senders: Senders) {
    forall a :: a in senders ==> SenderOk(a, senders[a])
  }

  /** Each row is filed under its own hash, so no two stored transactions share one. */
  ghost predicate RowsOk(rows: map<nat, Row>) {
    forall h :: h in rows ==> rows[h].tx.hash == h
  }

  /** Rows are numbered as they are inserted and no number is used again. */
  ghost predicate Numbered(rows: map<nat, Row>, next: nat) {
    && (forall h :: h in rows ==> rows[h].n < next)
    && (forall h, k :: h in rows && k in rows && rows[h].n == rows[k].n ==> h == k)
  }

  lemma FewerNumbered(rows: map<nat, Row>, fewer: map<nat, Row>, next: nat)
    requires Numbered(rows, next) && forall h :: h in fewer ==> h in rows && fewer[h] == rows[h]
    ensures Numbered(fewer, next)
  {
  }

  lemma OneMoreNumbered(rows: map<nat, Row>, row: Row)
    requires Numbered(rows, row.n) && row.tx.hash !in rows
    ensures Numbered(rows[row.tx.hash := row], row.n + 1)
  {
  }

  /** Rows of the storage in the order of their numbers. */
  ghost predicate InOrder(list: seq<Row>, rows: map<nat, Row>) {
    && (forall i, j :: 0 <= i < j < |list| ==> list[i].n < list[j].n)
    && (forall i :: 0 <= i < |list| ==> list[i].tx.hash in rows && rows[list[i].tx.hash] == list[i])
  }

  /** All of them. */
  ghost predicate Lists(list: seq<Row>, rows: map<nat, Row>) {
    InOrder(list, rows) && forall h :: h in rows ==> rows[h] in list
  }

  ghost predicate ListsUpTo(list: seq<Row>, rows: map<nat, Row>, n: nat) {
    && InOrder(list, rows) && (forall i :: 0 <= i < |list| ==> list[i].n < n)
    && (forall h :: h in rows && rows[h].n < n ==> rows[h] in list)
  }

  lemma ListsOneMore(list: seq<Row>, rows: map<nat, Row>, h: nat)
    requires h in rows && rows[h].tx.hash == h && ListsUpTo(list, rows, rows[h].n)
    requires forall k :: k in rows && rows[k].n == rows[h].n ==> k == h
    ensures ListsUpTo(list + [rows[h]], rows, rows[h].n + 1)
  {
    var more := list + [rows[h]];
    assert rows[h] == more[|list|];
    forall k | k in rows && rows[k].n < rows[h].n + 1 ensures rows[k] in more {
      if rows[k].n < rows[h].n {
        assert rows[k] in list;
      }
    }
  }

  /** The storage holds the pooled transactions and, beside them, only `extra` ones on their way in. */
  ghost predicate Mirrors(senders: Senders, rows: map<nat, Row>, extra: set<Tx>) {
    RowsOk(rows) && Stored(rows) == Pooled(senders) + extra && Pooled(senders) !! extra
  }

  // Sets of transactions

  lemma ChainHasNoTwins(s: Sender)
    requires Chained(s)
    ensures forall i, j :: 0 <= i < j < |s.txs| ==> s.txs[i] != s.txs[j]
  {
    forall i, j | 0 <= i < j < |s.txs| ensures s.txs[i] != s.txs[j] {
      assert s.txs[i].nonce < s.txs[j].nonce;
    }
  }

  lemma {:induction false} CountDistinct(txs: seq<Tx>)
    requires forall i, j :: 0 <= i < j < |txs| ==> txs[i] != txs[j]
    ensures |TxSet(txs)| == |txs|
    ensures forall x :: multiset(txs)[x] <= 1
  {
    if txs == [] {
      assert TxSet(txs) == {};
    } else {
      var front, last := txs[..|txs| - 1], txs[|txs| - 1];
      CountDistinct(front);
      assert txs == front + [last];
      assert TxSet(txs) == TxSet(front) + {last};
      assert last !in front;
    }
  }

  lemma ChainCount(s: Sender)
    requires Chained(s)
    ensures |TxSet(s.txs)| == |s.txs|
    ensures forall x :: multiset(s.txs)[x] <= 1
  {
    ChainHasNoTwins(s);
    CountDistinct(s.txs);
  }

  lemma PooledWithout(senders: Senders, a: Address)
    requires PoolOk(senders) && a in senders
    ensures Pooled(senders) == Pooled(senders - {a}) + TxSet(senders[a].txs)
    ensures Pooled(senders - {a}) !! TxSet(senders[a].txs)
  {
    assert SenderOk(a, senders[a]);
    forall x | x in Pooled(senders - {a}) ensures x !in senders[a].txs {
      var b :| b in senders - {a} && x in senders[b].txs;
      assert SenderOk(b, senders[b]);
      assert x.from == b;
    }
    forall x ensures x in Pooled(senders) <==> x in Pooled(senders - {a}) + TxSet(senders[a].txs) {
      if x in Pooled(senders) {
        var b :| b in senders && x in senders[b].txs;
        if b != a {
          assert (senders - {a})[b] == senders[b];
        }
      }
      if x in Pooled(senders - {a}) {
        var b :| b in senders - {a} && x in (senders - {a})[b].txs;
        assert x in senders[b].txs;
      }
    }
  }

  /** Storing a sender back, or disposing of it when it has nothing left. */
  function Put(senders: Senders, a: Address, s: Sender): Senders {
    if s.txs == [] then senders - {a} else senders[a := s]
  }

  lemma PutIs(senders: Senders, a: Address, s: Sender)
    requires PoolOk(senders) && Chained(s) && forall x :: x in s.txs ==> x.from == a
    ensures PoolOk(Put(senders, a, s))
    ensures Pooled(Put(senders, a, s)) == Pooled(senders - {a}) + TxSet(s.txs)
  {
    var after := Put(senders, a, s);
    if s.txs != [] {
      PooledWithout(after, a);
      assert after - {a} == senders - {a};
    }
  }

  function SenderOrFresh(senders: Senders, a: Address, account: Account): Sender {
    if a in senders then senders[a] else Fresh(account)
  }

  lemma CurrentIs(senders: Senders, a: Address, account: Account)
    requires PoolOk(senders)
    ensures var s := SenderOrFresh(senders, a, account);
      Chained(s) && (forall x :: x in s.txs ==> x.from == a) &&
      Pooled(senders) == Pooled(senders - {a}) + TxSet(s.txs) && Pooled(senders - {a}) !! TxSet(s.txs)
  {
    if a in senders {
      assert SenderOk(a, senders[a]);
      PooledWithout(senders, a);
    } else {
      assert senders - {a} == senders;
    }
  }

  /** What conservation of a chain means for the sets: the removed and the kept are disjoint and make up the whole. */
  lemma ConservedSets(before: seq<Tx>, tx: Tx, kept: seq<Tx>, removed: seq<Tx>)
    requires multiset(before) + multiset{tx} == multiset(kept) + multiset(removed)
    requires tx !in before && forall x :: multiset(before)[x] <= 1
    ensures TxSet(before) + {tx} == TxSet(kept) + TxSet(removed)
    ensures TxSet(kept) !! TxSet(removed)
  {
    var all := multiset(before) + multiset{tx};
    forall x ensures x in TxSet(before) + {tx} <==> x in TxSet(kept) + TxSet(removed) {
      assert x in all <==> x in before || x == tx;
      assert x in multiset(kept) + multiset(removed) <==> x in kept || x in removed;
    }
    forall x | x in kept ensures x !in removed {
      assert all[x] <= 1 && multiset(kept)[x] >= 1;
      assert multiset(removed)[x] == 0;
    }
  }

  lemma SplitSets(before: seq<Tx>, kept: seq<Tx>, removed: seq<Tx>)
    requires multiset(before) == multiset(kept) + multiset(removed)
    requires forall x :: multiset(before)[x] <= 1
    ensures TxSet(before) == TxSet(kept) + TxSet(removed)
    ensures TxSet(kept) !! TxSet(removed)
  {
    forall x ensures x in TxSet(before) <==> x in TxSet(kept) + TxSet(removed) {
      assert x in multiset(before) <==> x in before;
      assert x in multiset(kept) + multiset(removed) <==> x in kept || x in removed;
    }
    forall x | x in kept ensures x !in removed {
      assert multiset(before)[x] <= 1 && multiset(kept)[x] >= 1;
      assert multiset(removed)[x] == 0;
    }
  }

  // Mempool on values

  /** What adding to the mempool did: the senders after it and what was thrown out, or nothing at all. */
  datatype Added = Rejected | Accepted(senders: Senders, removed: seq<Tx>)

  /** No replacement means the transaction is added like any other; a replaced one leaves the storage. */
  function Conclude(senders: Senders, tx: Tx, s: Sender, outcome: Outcome, env: Env): Added {
    if tx.nonce <= s.nonce && outcome.Failed? then Rejected
    else if tx.nonce <= s.nonce && outcome.removed != [] then
      Accepted(Put(senders, tx.from, outcome.sender), outcome.removed)
    else if Admits(s, tx, env) then Accepted(Put(senders, tx.from, Add(s, tx)), [])
    else Rejected
  }

  function MempoolAdd(senders: Senders, tx: Tx, account: Account, env: Env): Added {
    var s := SenderOrFresh(senders, tx.from, account);
    Conclude(senders, tx, s, Replace(s, tx, env), env)
  }

  function MempoolRemove(senders: Senders, a: Address, hash: nat): (Senders, seq<Tx>) {
    if a !in senders then (senders, [])
    else
      var s := senders[a];
      var i := IndexOf(s.txs, hash);
      (Put(senders, a, Truncated(s, i)), Reversed(s.txs[i..]))
  }

  function MempoolReAdd(senders: Senders, a: Address, account: Account, env: Env): (Senders, seq<Tx>) {
    if a !in senders then (senders, [])
    else
      var (t, removed) := ReAdd(senders[a], account, env);
      (Put(senders, a, t), removed)
  }

  /** Putting back a sender that gained `offered` and lost `removed` does the same to the pool. */
  lemma PutConserves(senders: Senders, a: Address, account: Account, t: Sender, offered: set<Tx>, removed: set<Tx>)
    requires PoolOk(senders) && Chained(t)
    requires var s := SenderOrFresh(senders, a, account);
      TxSet(s.txs) + offered == TxSet(t.txs) + removed && TxSet(t.txs) !! removed
    requires offered !! Pooled(senders) && forall x :: x in offered ==> x.from == a
    ensures PoolOk(Put(senders, a, t))
    ensures Pooled(senders) + offered == Pooled(Put(senders, a, t)) + removed
    ensures Pooled(Put(senders, a, t)) !! removed
  {
    CurrentIs(senders, a, account);
    forall x | x in t.txs ensures x.from == a {
      assert x in TxSet(t.txs);
    }
    PutIs(senders, a, t);
  }

  lemma AppendConserves(senders: Senders, tx: Tx, account: Account, env: Env)
    requires PoolOk(senders) && tx !in Pooled(senders)
    requires Admits(SenderOrFresh(senders, tx.from, account), tx, env)
    ensures var after := Put(senders, tx.from, Add(SenderOrFresh(senders, tx.from, account), tx));
      PoolOk(after) && Pooled(after) == Pooled(senders) + {tx}
  {
    CurrentIs(senders, tx.from, account);
    var s := SenderOrFresh(senders, tx.from, account);
    AddKeeps(s, tx, env);
    assert TxSet(s.txs + [tx]) == TxSet(s.txs) + {tx};
    PutConserves(senders, tx.from, account, Add(s, tx), {tx}, {});
  }

  lemma ReplaceConserves(senders: Senders, tx: Tx, account: Account, t: Sender, removed: seq<Tx>)
    requires PoolOk(senders) && tx !in Pooled(senders) && Chained(t)
    requires multiset(SenderOrFresh(senders, tx.from, account).txs) + multiset{tx} ==
      multiset(t.txs) + multiset(removed)
    ensures var after := Put(senders, tx.from, t);
      PoolOk(after) && Pooled(senders) + {tx} == Pooled(after) + TxSet(removed) && Pooled(after) !! TxSet(removed)
  {
    CurrentIs(senders, tx.from, account);
    var s := SenderOrFresh(senders, tx.from, account);
    ChainCount(s);
    assert tx !in TxSet(s.txs);
    ConservedSets(s.txs, tx, t.txs, removed);
    PutConserves(senders, tx.from, account, t, {tx}, TxSet(removed));
  }

  lemma ConcludeIs(senders: Senders, tx: Tx, account: Account, s: Sender, outcome: Outcome, env: Env,
                   after: Senders, removed: seq<Tx>)
    requires PoolOk(senders) && tx !in Pooled(senders) && s == SenderOrFresh(senders, tx.from, account)
    requires outcome.Done? && outcome.removed != [] ==>
      Chained(outcome.sender) &&
      multiset(s.txs) + multiset{tx} == multiset(outcome.sender.txs) + multiset(outcome.removed)
    requires Conclude(senders, tx, s, outcome, env) == Accepted(after, removed)
    ensures PoolOk(after) && Pooled(after) !! TxSet(removed)
    ensures Pooled(senders) + {tx} == Pooled(after) + TxSet(removed)
  {
    if tx.nonce <= s.nonce && outcome.removed != [] {
      ReplaceConserves(senders, tx, account, outcome.sender, outcome.removed);
    } else {
      AppendConserves(senders, tx, account, env);
      assert TxSet([]) == {};
    }
  }

  /** Of the pool and the newcomer, what is not thrown out is pooled afterwards; the newcomer may be thrown out too. */
  lemma MempoolAddIs(senders: Senders, tx: Tx, account: Account, env: Env, after: Senders, removed: seq<Tx>)
    requires PoolOk(senders) && tx !in Pooled(senders)
    requires MempoolAdd(senders, tx, account, env) == Accepted(after, removed)
    ensures PoolOk(after) && Pooled(after) !! TxSet(removed)
    ensures Pooled(senders) + {tx} == Pooled(after) + TxSet(removed)
    ensures |Pooled(after)| <= |Pooled(senders)| + 1
  {
    var s := SenderOrFresh(senders, tx.from, account);
    CurrentIs(senders, tx.from, account);
    ReplaceKeeps(s, tx, env);
    ConcludeIs(senders, tx, account, s, Replace(s, tx, env), env, after, removed);
    SubsetCount(Pooled(after), Pooled(senders) + {tx});
  }

  lemma {:induction false} ReversedSet(txs: seq<Tx>)
    ensures TxSet(Reversed(txs)) == TxSet(txs) && |Reversed(txs)| == |txs|
  {
    if txs == [] {
    } else {
      ReversedSet(txs[..|txs| - 1]);
      assert TxSet(txs) == TxSet(txs[..|txs| - 1]) + {txs[|txs| - 1]};
    }
  }

  /** Nothing happens where no pooled transaction has the hash. */
  lemma NothingRemoved(senders: Senders, a: Address, hash: nat)
    requires PoolOk(senders) && forall x :: x in Pooled(senders) ==> x.hash != hash
    ensures MempoolRemove(senders, a, hash).0 == senders
  {
    if a in senders {
      var s := senders[a];
      assert SenderOk(a, s);
      forall k | 0 <= k < |s.txs| ensures s.txs[k].hash != hash {
        assert s.txs[k] in s.txs && s.txs[k] in Pooled(senders);
      }
      var i := IndexOf(s.txs, hash);
      assert s.txs[..i] == s.txs && s.txs[i..] == [];
    }
  }

  /** A removed transaction takes every later one of its sender along. */
  lemma MempoolRemoveIs(senders: Senders, a: Address, hash: nat)
    requires PoolOk(senders)
    ensures var after, removed := MempoolRemove(senders, a, hash).0, MempoolRemove(senders, a, hash).1;
      && PoolOk(after)
      && Pooled(senders) == Pooled(after) + TxSet(removed) && Pooled(after) !! TxSet(removed)
  {
    hide Pooled, Cost, Chained, Truncated, SumOfValues, SumOfFees, TotalCost, Put, Reversed;
    assert TxSet([]) == {};
    if a in senders {
      var s := senders[a];
      assert SenderOk(a, s);
      var i := IndexOf(s.txs, hash);
      ChainCount(s);
      RemoveKeeps(s, hash);
      TruncatedIs(s, i);
      ReversedSet(s.txs[i..]);
      SplitSets(s.txs, s.txs[..i], s.txs[i..]);
      PutConserves(senders, a, s.account, Truncated(s, i), {}, TxSet(s.txs[i..]));
    }
  }

  lemma NoneLeft(senders: Senders, a: Address, hash: nat)
    requires PoolOk(senders)
    ensures forall x :: x in Pooled(MempoolRemove(senders, a, hash).0) && x.from == a ==> x.hash != hash
  {
    hide Cost;
    MempoolRemoveIs(senders, a, hash);
    var after := MempoolRemove(senders, a, hash).0;
    forall x | x in Pooled(after) && x.from == a ensures x.hash != hash {
      var b :| b in after && x in after[b].txs;
      assert SenderOk(b, after[b]);
      assert a in senders && SenderOk(a, senders[a]);
      TruncatedIs(senders[a], IndexOf(senders[a].txs, hash));
    }
  }

  /** Nothing pooled before is missing below what is pooled after: no sender has a gap in its nonces. */
  ghost predicate NoGaps(after: Senders, before: Senders) {
    forall x, y :: x in Pooled(after) && y in Pooled(before) && y.from == x.from && y.nonce <= x.nonce ==>
      y in Pooled(after)
  }

  lemma NoGapsOn(a: Senders, b: Senders, c: Senders)
    requires NoGaps(b, a) && NoGaps(c, b) && Pooled(c) <= Pooled(b)
    ensures NoGaps(c, a)
  {
    hide Pooled;
  }

  /** Some pooled transaction with this hash is not later than `x` from the same sender. */
  ghost predicate HasBefore(senders: Senders, x: Tx, hash: nat) {
    exists y :: y in Pooled(senders) && y.hash == hash && y.from == x.from && y.nonce <= x.nonce
  }

  lemma InFront(txs: seq<Tx>, i: nat, k: nat)
    requires i <= |txs| && k < |txs|
    ensures k < i ==> txs[k] in txs[..i]
  {
    assert k < i ==> txs[..i][k] == txs[k];
  }

  lemma OthersDiffer(senders: Senders, a: Address)
    requires PoolOk(senders)
    ensures forall x :: x in Pooled(senders - {a}) ==> x.from != a
  {
    forall x | x in Pooled(senders - {a}) ensures x.from != a {
      var b :| b in senders - {a} && x in (senders - {a})[b].txs;
      assert SenderOk(b, senders[b]);
    }
  }

  lemma EarlierStays(s: Sender, i: nat, x: Tx, y: Tx)
    requires Chained(s) && i <= |s.txs| && x in s.txs[..i] && y in s.txs && y.nonce <= x.nonce
    ensures y in s.txs[..i]
  {
    var j :| 0 <= j < i && s.txs[..i][j] == x;
    var k :| 0 <= k < |s.txs| && s.txs[k] == y;
    assert s.txs[j].nonce == s.account.nonce + j && s.txs[k].nonce == s.account.nonce + k;
    assert s.txs[..i][k] == y;
  }

  lemma CutChain(senders: Senders, s: Sender, a: Address, i: nat, after: Senders, hash: nat)
    requires PoolOk(senders) && a in senders && senders[a] == s && Chained(s) && i <= |s.txs|
    requires i < |s.txs| ==> s.txs[i].hash == hash
    requires forall x :: x in s.txs ==> x.from == a
    requires Pooled(after) == Pooled(senders - {a}) + TxSet(s.txs[..i])
    ensures NoGaps(after, senders)
    ensures forall x :: x in Pooled(senders) && x !in Pooled(after) ==> HasBefore(senders, x, hash)
  {
    PooledWithout(senders, a);
    OthersDiffer(senders, a);
    hide Pooled;
    forall x, y | x in Pooled(after) && y in Pooled(senders) && y.from == x.from && y.nonce <= x.nonce
      ensures y in Pooled(after)
    {
      if y in TxSet(s.txs) {
        EarlierStays(s, i, x, y);
      }
    }
    forall x | x in Pooled(senders) && x !in Pooled(after) ensures HasBefore(senders, x, hash) {
      var k :| 0 <= k < |s.txs| && s.txs[k] == x;
      InFront(s.txs, i, k);
      assert s.txs[i] in Pooled(senders) && s.txs[i].nonce <= x.nonce;
    }
  }

  /** What goes with a removed transaction are the later ones of its sender. */
  lemma RemovedAreLast(senders: Senders, a: Address, hash: nat)
    requires PoolOk(senders)
    ensures var after := MempoolRemove(senders, a, hash).0;
      && NoGaps(after, senders)
      && forall x :: x in Pooled(senders) && x !in Pooled(after) ==> HasBefore(senders, x, hash)
  {
    hide Cost;
    if a in senders {
      MempoolRemoveIs(senders, a, hash);
      var s := senders[a];
      assert SenderOk(a, s);
      var i := IndexOf(s.txs, hash);
      var after := MempoolRemove(senders, a, hash).0;
      ReversedSet(s.txs[i..]);
      TruncatedIs(s, i);
      assert Put(senders, a, Truncated(s, i)) == after;
      PutIs(senders, a, Truncated(s, i));
      CutChain(senders, s, a, i, after, hash);
    }
  }

  lemma MempoolReAddIs(senders: Senders, a: Address, account: Account, env: Env)
    requires PoolOk(senders)
    ensures var after, removed := MempoolReAdd(senders, a, account, env).0, MempoolReAdd(senders, a, account, env).1;
      && PoolOk(after)
      && Pooled(senders) == Pooled(after) + TxSet(removed) && Pooled(after) !! TxSet(removed)
  {
    hide Pooled, AddEach, Cost;
    assert TxSet([]) == {};
    if a in senders {
      var s := senders[a];
      assert SenderOk(a, s);
      ChainCount(s);
      ReAddKeeps(s, account, env);
      var t, removed := ReAdd(s, account, env).0, ReAdd(s, account, env).1;
      SplitSets(s.txs, t.txs, removed);
      PutConserves(senders, a, account, t, {}, TxSet(removed));
    }
  }

  // The lowest priority transaction

  function LastOf(senders: Senders, a: Address): Tx
    requires a in senders && senders[a].txs != []
  {
    senders[a].txs[|senders[a].txs| - 1]
  }

  /** The latest transaction of some sender, and no other sender's latest one is cheaper. */
  ghost predicate IsLowest(senders: Senders, tx: Tx) {
    && tx.from in senders && senders[tx.from].txs != [] && tx == LastOf(senders, tx.from)
    && forall b :: b in senders && senders[b].txs != [] ==> LastOf(senders, b).gasPrice >= tx.gasPrice
  }

  lemma InSet(txs: seq<Tx>)
    ensures forall x :: x in TxSet(txs) <==> x in txs
  {
  }

  /** The last transaction of a sender is found by its hash, so it is removed alone. */
  lemma LastByHash(s: Sender, tx: Tx)
    requires s.txs != [] && Chained(s) && s.txs[|s.txs| - 1] == tx
    requires forall x :: x in s.txs && x.hash == tx.hash ==> x == tx
    ensures Reversed(s.txs[IndexOf(s.txs, tx.hash)..]) == [tx]
  {
    hide TotalCost;
    ChainHasNoTwins(s);
    var i, last := IndexOf(s.txs, tx.hash), |s.txs| - 1;
    assert i <= last && s.txs[i] == tx && i == last;
    assert s.txs[i..] == [tx] && Reversed([tx]) == [tx];
  }

  /** Evicting the lowest priority transaction takes out that one alone: no later nonce depends on it. */
  lemma EvictsExactlyOne(senders: Senders, tx: Tx)
    requires PoolOk(senders) && IsLowest(senders, tx)
    requires forall x, y :: x in Pooled(senders) && y in Pooled(senders) && x.hash == y.hash ==> x == y
    ensures MempoolRemove(senders, tx.from, tx.hash).1 == [tx]
    ensures Pooled(MempoolRemove(senders, tx.from, tx.hash).0) == Pooled(senders) - {tx}
  {
    hide Pooled, TxSet, TotalCost;
    var s := senders[tx.from];
    assert SenderOk(tx.from, s);
    PooledWithout(senders, tx.from);
    InSet(s.txs);
    LastByHash(s, tx);
    MempoolRemoveIs(senders, tx.from, tx.hash);
    InSet([tx]);
  }

  // Storage

  function Hashes(txs: set<Tx>): set<nat> {
    set x | x in txs :: x.hash
  }

  lemma HashesHold(txs: set<Tx>, tx: Tx)
    requires tx in txs
    ensures tx.hash in Hashes(txs)
  {
  }

  lemma HashOfOne(tx: Tx)
    ensures Hashes(TxSet([tx])) == {tx.hash} && Hashes({tx}) == {tx.hash}
  {
    assert TxSet([tx]) == {tx};
  }

  lemma TakenBack(rows: map<nat, Row>, row: Row)
    requires row.tx.hash !in rows
    ensures rows[row.tx.hash := row] - {row.tx.hash} == rows
  {
  }

  lemma StoredAtHash(rows: map<nat, Row>, x: Tx)
    requires RowsOk(rows) && x in Stored(rows)
    ensures x.hash in rows && rows[x.hash].tx == x
  {
    var h :| h in rows && rows[h].tx == x;
    assert h == x.hash;
  }

  /** Deleting by hash deletes exactly those transactions: a hash is stored for one transaction only. */
  lemma DeletedIs(rows: map<nat, Row>, gone: set<Tx>)
    requires RowsOk(rows)
    requires forall x :: x in gone ==> x in Stored(rows) || x.hash !in rows
    ensures RowsOk(rows - Hashes(gone))
    ensures Stored(rows - Hashes(gone)) == Stored(rows) - gone
  {
    var after := rows - Hashes(gone);
    forall x | x in Stored(after) ensures x in Stored(rows) - gone {
      StoredAtHash(after, x);
      assert rows[x.hash].tx == x && x.hash !in Hashes(gone);
    }
    forall x | x in Stored(rows) - gone ensures x in Stored(after) {
      StoredAtHash(rows, x);
      forall y | y in gone ensures y.hash != x.hash {
        if y in Stored(rows) {
          StoredAtHash(rows, y);
        }
      }
      assert x.hash in after && after[x.hash].tx == x;
    }
  }

  /** Hashes identify the pooled transactions, because they identify the rows. */
  lemma PooledHashesDiffer(senders: Senders, rows: map<nat, Row>, extra: set<Tx>)
    requires Mirrors(senders, rows, extra)
    ensures forall x, y :: x in Stored(rows) && y in Stored(rows) && x.hash == y.hash ==> x == y
  {
    forall x, y | x in Stored(rows) && y in Stored(rows) && x.hash == y.hash ensures x == y {
      StoredAtHash(rows, x);
      StoredAtHash(rows, y);
    }
  }

  lemma LowestIsPooled(senders: Senders, tx: Tx)
    requires PoolOk(senders) && IsLowest(senders, tx)
    ensures tx in Pooled(senders)
  {
    PooledWithout(senders, tx.from);
    assert tx in TxSet(senders[tx.from].txs);
  }

  /** Evicting the lowest priority transaction from pool and storage alike. */
  lemma EvictionMirrors(senders: Senders, rows: map<nat, Row>, extra: set<Tx>, tx: Tx)
    requires PoolOk(senders) && Mirrors(senders, rows, extra) && IsLowest(senders, tx)
    ensures var after := MempoolRemove(senders, tx.from, tx.hash).0;
      && PoolOk(after) && Mirrors(after, rows - {tx.hash}, extra)
      && Pooled(after) == Pooled(senders) - {tx} && tx in Pooled(senders)
    ensures MempoolRemove(senders, tx.from, tx.hash).1 == [tx]
  {
    hide Pooled, Stored, Chained, MempoolRemove, IsLowest;
    PooledHashesDiffer(senders, rows, extra);
    EvictsExactlyOne(senders, tx);
    MempoolRemoveIs(senders, tx.from, tx.hash);
    LowestIsPooled(senders, tx);
    DeletedIs(rows, {tx});
    assert Hashes({tx}) == {tx.hash};
    assert Stored(rows) - {tx} == (Pooled(senders) - {tx}) + extra;
  }

  /** Adding a stored transaction to the mempool and deleting what was thrown out keeps the mirror. */
  lemma AdditionMirrors(senders: Senders, rows: map<nat, Row>, extra: set<Tx>, tx: Tx, after: Senders, removed: seq<Tx>)
    requires Mirrors(senders, rows, extra) && tx in extra
    requires Pooled(after) !! TxSet(removed) && Pooled(senders) + {tx} == Pooled(after) + TxSet(removed)
    ensures Mirrors(after, rows - Hashes(TxSet(removed)), extra - {tx})
  {
    hide Pooled, Stored, TxSet;
    forall x | x in TxSet(removed) ensures x in Stored(rows) {
      assert x in Pooled(senders) + {tx};
    }
    DeletedIs(rows, TxSet(removed));
    assert Stored(rows) - TxSet(removed) == Pooled(after) + (extra - {tx});
  }

  lemma SizeStep(senders: Senders, left: set<Address>, a: Address)
    requires PoolOk(senders) && a in left && left <= senders.Keys
    ensures |Pooled(senders - (left - {a}))| == |Pooled(senders - left)| + |senders[a].txs|
  {
    var next := senders - (left - {a});
    assert next[a] == senders[a];
    PooledWithout(next, a);
    assert next - {a} == senders - left;
    assert SenderOk(a, senders[a]);
    ChainCount(senders[a]);
  }

  /** Old rows are expired once the block they entered at is `maxTransactionAge` blocks back. */
  predicate IsExpired(row: Row, expiredBlockNumber: int) {
    row.blockNumber <= expiredBlockNumber
  }

  ghost predicate PooledAreFresh(senders: Senders, rows: map<nat, Row>, expiredBlockNumber: int) {
    forall x :: x in Pooled(senders) ==> x.hash in rows && rows[x.hash].blockNumber > expiredBlockNumber
  }

  ghost predicate NoneExpired(rows: map<nat, Row>, expiredBlockNumber: int) {
    forall h :: h in rows ==> rows[h].blockNumber > expiredBlockNumber
  }

  /** Neither `x` nor any transaction of its sender before it is expired. */
  ghost predicate Survives(senders: Senders, rows: map<nat, Row>, x: Tx, expiredBlockNumber: int) {
    forall y :: y in Pooled(senders) && y.from == x.from && y.nonce <= x.nonce ==>
      y.hash in rows && rows[y.hash].blockNumber > expiredBlockNumber
  }

  ghost predicate KeepsSurvivors(after: Senders, senders: Senders, rows: map<nat, Row>, expiredBlockNumber: int) {
    forall x :: x in Pooled(senders) && Survives(senders, rows, x, expiredBlockNumber) ==> x in Pooled(after)
  }

  lemma NotBehind(before: Senders, senders: Senders, rows: map<nat, Row>, x: Tx, hash: nat, expired: int)
    requires Survives(before, rows, x, expired) && Pooled(senders) <= Pooled(before)
    requires hash in rows && IsExpired(rows[hash], expired)
    ensures !HasBefore(senders, x, hash)
  {
    hide Pooled;
  }

  lemma SurvivorsOutlive(before: Senders, senders: Senders, after: Senders, rows: map<nat, Row>, hash: nat,
                         expired: int)
    requires KeepsSurvivors(senders, before, rows, expired) && Pooled(senders) <= Pooled(before)
    requires hash in rows && IsExpired(rows[hash], expired)
    requires forall x :: x in Pooled(senders) && x !in Pooled(after) ==> HasBefore(senders, x, hash)
    ensures KeepsSurvivors(after, before, rows, expired)
  {
    hide Pooled;
    forall x | x in Pooled(before) && Survives(before, rows, x, expired) ensures x in Pooled(after) {
      NotBehind(before, senders, rows, x, hash, expired);
    }
  }

  lemma RowsPointwise(rows: map<nat, Row>)
    requires RowsOk(rows)
    ensures forall h :: h in rows ==> rows[h].tx in Stored(rows)
    ensures forall x :: x in Stored(rows) ==> x.hash in rows && rows[x.hash].tx == x
  {
    forall x | x in Stored(rows) ensures x.hash in rows && rows[x.hash].tx == x {
      StoredAtHash(rows, x);
    }
  }

  /** What is left after the expired transactions are removed are exactly the survivors. */
  lemma OnlySurvivors(before: Senders, after: Senders, rows: map<nat, Row>, rows': map<nat, Row>, extra: set<Tx>,
                      expired: int)
    requires NoGaps(after, before) && Mirrors(after, rows', extra)
    requires forall h :: h in rows' ==> h in rows && rows'[h] == rows[h] && !IsExpired(rows'[h], expired)
    ensures forall x :: x in Pooled(after) ==> Survives(before, rows, x, expired)
  {
    RowsPointwise(rows');
    hide Pooled, Stored;
    forall x, y | x in Pooled(after) && y in Pooled(before) && y.from == x.from && y.nonce <= x.nonce
      ensures y.hash in rows && !IsExpired(rows[y.hash], expired)
    {
      assert y in Pooled(after) && y in Stored(rows');
    }
  }

  lemma AllSurvive(senders: Senders, rows: map<nat, Row>, expired: int)
    ensures NoGaps(senders, senders) && KeepsSurvivors(senders, senders, rows, expired)
  {
  }

  /** The rows of pooled transactions decide about survival, and those were not touched. */
  lemma SameSurvivors(after: Senders, senders: Senders, rows: map<nat, Row>, more: map<nat, Row>, expired: int)
    requires KeepsSurvivors(after, senders, rows, expired) && Mirrors(senders, rows, {})
    requires forall h :: h in rows ==> h in more && rows[h] == more[h]
    ensures KeepsSurvivors(after, senders, more, expired)
  {
    RowsPointwise(rows);
    hide Pooled, Stored;
    forall x | x in Pooled(senders) && Survives(senders, more, x, expired) ensures Survives(senders, rows, x, expired) {
      forall y | y in Pooled(senders) && y.from == x.from && y.nonce <= x.nonce
        ensures y.hash in rows && !IsExpired(rows[y.hash], expired)
      {
        assert y in Stored(rows);
      }
    }
  }

  lemma NotEmpty(senders: Senders)
    ensures |Pooled(senders)| > 0 ==> Pooled(senders) != {}
  {
  }

  /** The mempool after the chains of some senders were rebuilt on their new accounts, one after the other. */
  function ReAddAll(senders: Senders, addresses: seq<Address>, accounts: Address -> Account, env: Env): Senders {
    if addresses == [] then senders
    else
      var last := addresses[|addresses| - 1];
      MempoolReAdd(ReAddAll(senders, addresses[..|addresses| - 1], accounts, env), last, accounts(last), env).0
  }

  /** The mempool takes the transaction or rejects it and stays as it is. */
  ghost predicate Adds(before: Senders, tx: Tx, account: Account, env: Env, ok: bool, after: Senders) {
    match MempoolAdd(before, tx, account, env)
    case Rejected => !ok && after == before
    case Accepted(senders, _) => ok && after == senders
  }

  /** A full pool fails a transaction that does not pay more than the lowest ones, and changes nothing; one that does
      has a lowest one evicted for it. */
  ghost predicate OutbidsOrFails(before: Senders, tx: Tx, account: Account, env: Env, ok: bool, after: Senders) {
    || (!ok && after == before && forall lowest :: IsLowest(before, lowest) ==> tx.gasPrice <= lowest.gasPrice)
    || (exists gone :: IsLowest(before, gone) && tx.gasPrice > gone.gasPrice &&
                       Adds(MempoolRemove(before, gone.from, gone.hash).0, tx, account, env, ok, after))
  }

  /** The rows after an addition: what was thrown out is not stored any more. */
  function RowsWithout(rows: map<nat, Row>, added: Added): map<nat, Row> {
    match added
    case Rejected => rows
    case Accepted(_, removed) => rows - Hashes(TxSet(removed))
  }

  /** What offering a transaction to a pool that was cleaned up comes to. */
  ghost predicate Resolves(before: Senders, tx: Tx, account: Account, env: Env, limit: nat, ok: bool, after: Senders) {
    if |Pooled(before)| < limit then Adds(before, tx, account, env, ok, after)
    else OutbidsOrFails(before, tx, account, env, ok, after)
  }

  /** A pool with room, or without anything expired, is left alone; else expired transactions and their followers are
      gone, and nothing else unless the pool is still full. */
  ghost predicate CleanedUp(cleaned: Senders, senders: Senders, rows: map<nat, Row>, expired: int, limit: nat) {
    && (|Pooled(senders)| < limit ==> cleaned == senders)
    && (PooledAreFresh(senders, rows, expired) ==> cleaned == senders)
    && (|Pooled(senders)| >= limit ==> PooledAreFresh(cleaned, rows, expired))
    && Pooled(cleaned) <= Pooled(senders) && NoGaps(cleaned, senders)
    && (|Pooled(cleaned)| == limit || KeepsSurvivors(cleaned, senders, rows, expired))
  }

  lemma ResolvesNow(before: Senders, tx: Tx, account: Account, env: Env, limit: nat, ok: bool, after: Senders)
    requires |Pooled(before)| < limit ==> Adds(before, tx, account, env, ok, after)
    requires |Pooled(before)| >= limit ==> OutbidsOrFails(before, tx, account, env, ok, after)
    ensures Resolves(before, tx, account, env, limit, ok, after)
  {
  }

  lemma CleanedNow(cleaned: Senders, senders: Senders, rows: map<nat, Row>, expired: int, limit: nat)
    requires |Pooled(senders)| == limit && (PooledAreFresh(senders, rows, expired) ==> cleaned == senders)
    requires PooledAreFresh(cleaned, rows, expired)
    requires Pooled(cleaned) <= Pooled(senders) && NoGaps(cleaned, senders)
    requires |Pooled(cleaned)| == limit || KeepsSurvivors(cleaned, senders, rows, expired)
    ensures CleanedUp(cleaned, senders, rows, expired, limit)
  {
  }

  /** With room the mempool decides alone. */
  lemma DecidesAlone(cleaned: Senders, senders: Senders, rows: map<nat, Row>, tx: Tx, account: Account, env: Env,
                     expired: int, limit: nat, ok: bool, after: Senders)
    requires CleanedUp(cleaned, senders, rows, expired, limit) && |Pooled(senders)| < limit
    requires Resolves(cleaned, tx, account, env, limit, ok, after)
    ensures Adds(senders, tx, account, env, ok, after)
  {
    hide MempoolAdd, Adds;
  }

  lemma RejectedInRoom(cleaned: Senders, senders: Senders, rows: map<nat, Row>, tx: Tx, account: Account, env: Env,
                       expired: int, limit: nat, after: Senders, more: map<nat, Row>)
    requires CleanedUp(cleaned, senders, rows, expired, limit)
    requires Resolves(cleaned, tx, account, env, limit, false, after)
    ensures |Pooled(senders)| < limit ==> RowsWithout(more, MempoolAdd(senders, tx, account, env)) == more
  {
    hide MempoolAdd;
  }

  lemma NotPooled(senders: Senders, rows: map<nat, Row>, extra: set<Tx>)
    requires Mirrors(senders, rows, extra)
    ensures Pooled(senders) !! extra
  {
  }

  lemma FreshRows(senders: Senders, rows: map<nat, Row>, extra: set<Tx>, before: map<nat, Row>, expired: int)
    requires Mirrors(senders, rows, extra)
    requires forall h :: h in rows ==> h in before && rows[h] == before[h] && rows[h].blockNumber > expired
    ensures PooledAreFresh(senders, before, expired)
  {
    RowsPointwise(rows);
    hide Pooled, Stored;
    assert forall x :: x in Pooled(senders) ==> x in Stored(rows);
  }

  lemma NotCleaned(senders: Senders, rows: map<nat, Row>, expired: int, limit: nat)
    requires |Pooled(senders)| < limit
    ensures CleanedUp(senders, senders, rows, expired, limit)
  {
    AllSurvive(senders, rows, expired);
  }

  /** Rows of transactions that are not pooled make no difference. */
  lemma CleanedAmongMore(cleaned: Senders, senders: Senders, rows: map<nat, Row>, more: map<nat, Row>, expired: int,
                         limit: nat)
    requires CleanedUp(cleaned, senders, more, expired, limit) && Mirrors(senders, rows, {})
    requires forall h :: h in rows ==> h in more && more[h] == rows[h]
    ensures CleanedUp(cleaned, senders, rows, expired, limit)
  {
    RowsPointwise(rows);
    hide Pooled, Stored, NoGaps;
    assert forall x :: x in Pooled(senders) ==> x in Stored(rows);
  }

  lemma OutbidFails(senders: Senders, lowest: Tx, tx: Tx, account: Account, env: Env)
    requires IsLowest(senders, lowest) && tx.gasPrice <= lowest.gasPrice
    ensures OutbidsOrFails(senders, tx, account, env, false, senders)
  {
    hide MempoolAdd, MempoolRemove;
  }

  lemma OutbidWins(senders: Senders, lowest: Tx, gone: Tx, tx: Tx, account: Account, env: Env, ok: bool, after: Senders)
    requires IsLowest(senders, lowest) && tx.gasPrice > lowest.gasPrice && IsLowest(senders, gone)
    requires Adds(MempoolRemove(senders, gone.from, gone.hash).0, tx, account, env, ok, after)
    ensures OutbidsOrFails(senders, tx, account, env, ok, after)
  {
    hide MempoolAdd, MempoolRemove, Adds;
    assert gone.gasPrice == lowest.gasPrice;
  }

  lemma AllLowestPooled(senders: Senders)
    requires PoolOk(senders)
    ensures forall tx :: IsLowest(senders, tx) ==> tx in Pooled(senders)
  {
    hide Pooled;
    forall tx | IsLowest(senders, tx) ensures tx in Pooled(senders) {
      LowestIsPooled(senders, tx);
    }
  }

  lemma NothingToOutbid(senders: Senders, tx: Tx, account: Account, env: Env)
    requires PoolOk(senders) && |Pooled(senders)| == 0
    ensures OutbidsOrFails(senders, tx, account, env, false, senders)
  {
    hide IsLowest, MempoolAdd, MempoolRemove;
    AllLowestPooled(senders);
  }

  /** What offering one stored row to a mempool of unexpired transactions can lead to: an expired row is left out, with
      room the mempool decides alone, and a full one has to be outbid. */
  ghost predicate Offers(before: Senders, row: Row, expired: int, account: Account, env: Env, limit: nat,
                         after: Senders) {
    if row.blockNumber <= expired then after == before
    else if |Pooled(before)| < limit then exists ok :: Adds(before, row.tx, account, env, ok, after)
    else exists ok :: OutbidsOrFails(before, row.tx, account, env, ok, after)
  }

  /** The mempool after the rows were offered one after the other to an empty one. */
  ghost predicate Reloads(list: seq<Row>, expired: int, accounts: Address -> Account, env: Env, limit: nat,
                          after: Senders) {
    if list == [] then after == map[]
    else
      var last := list[|list| - 1];
      exists before :: Reloads(list[..|list| - 1], expired, accounts, env, limit, before) &&
                       Offers(before, last, expired, accounts(last.tx.from), env, limit, after)
  }

  lemma ReloadsNothing(expired: int, accounts: Address -> Account, env: Env, limit: nat)
    ensures Reloads([], expired, accounts, env, limit, map[])
  {
  }

  lemma ReloadsOneMore(list: seq<Row>, k: nat, expired: int, accounts: Address -> Account, env: Env, limit: nat,
                       before: Senders, after: Senders)
    requires k < |list| && Reloads(list[..k], expired, accounts, env, limit, before)
    requires Offers(before, list[k], expired, accounts(list[k].tx.from), env, limit, after)
    ensures Reloads(list[..k + 1], expired, accounts, env, limit, after)
  {
    hide Offers;
    assert list[..k + 1][..k] == list[..k];
  }

  lemma ReAddAllNone(senders: Senders, accounts: Address -> Account, env: Env)
    ensures ReAddAll(senders, [], accounts, env) == senders
  {
  }

  lemma ReAddAllStep(senders: Senders, addresses: seq<Address>, k: nat, accounts: Address -> Account, env: Env)
    requires k < |addresses|
    ensures ReAddAll(senders, addresses[..k + 1], accounts, env) ==
      MempoolReAdd(ReAddAll(senders, addresses[..k], accounts, env), addresses[k], accounts(addresses[k]), env).0
  {
    hide MempoolReAdd;
    assert addresses[..k + 1][..k] == addresses[..k];
  }

  /** The hashes of the rows from `i` on. */
  ghost function Ahead(list: seq<Row>, i: nat): set<nat> {
    set k | i <= k < |list| :: list[k].tx.hash
  }

  /** Rows not looked at yet are stored beside the pool, unless they expired and were cleaned up already. */
  ghost predicate Loading(senders: Senders, rows: map<nat, Row>, extra: set<Tx>, snapshot: map<nat, Row>,
                          left: set<nat>, expired: int) {
    && PoolOk(senders) && Mirrors(senders, rows, extra) && RowsOk(snapshot) && left <= snapshot.Keys
    && (forall h :: h in rows ==> h in snapshot && rows[h] == snapshot[h])
    && (forall x :: x in extra ==> x.hash in left && snapshot[x.hash].tx == x)
    && (forall x :: x in Pooled(senders) ==> x.hash !in left)
    && (forall h :: h in left && !IsExpired(snapshot[h], expired) ==> snapshot[h].tx in extra)
    && PooledAreFresh(senders, rows, expired) && Pooled(senders) <= Stored(snapshot)
  }

  lemma NothingPooled()
    ensures Pooled(map[]) == {}
  {
  }

  lemma StartLoading(rows: map<nat, Row>, list: seq<Row>, expired: int)
    requires RowsOk(rows) && Lists(list, rows)
    ensures Loading(map[], rows, Stored(rows), rows, Ahead(list, 0), expired) && |Pooled(map[])| == 0
  {
    NothingPooled();
    RowsPointwise(rows);
    hide Pooled, Stored;
    forall h | h in rows ensures h in Ahead(list, 0) {
      var k :| 0 <= k < |list| && list[k] == rows[h];
    }
  }

  lemma AheadStep(list: seq<Row>, rows: map<nat, Row>, i: nat)
    requires Lists(list, rows) && i < |list|
    ensures list[i].tx.hash in Ahead(list, i) && Ahead(list, i + 1) == Ahead(list, i) - {list[i].tx.hash}
  {
    forall k | i < k < |list| ensures list[k].tx.hash != list[i].tx.hash {
      assert list[i].n < list[k].n;
    }
  }

  lemma PendingRow(senders: Senders, rows: map<nat, Row>, extra: set<Tx>, snapshot: map<nat, Row>, list: seq<Row>,
                   i: nat, expired: int)
    requires Loading(senders, rows, extra, snapshot, Ahead(list, i), expired) && Lists(list, snapshot) && i < |list|
    ensures var row := list[i];
      && (row.tx.hash in rows ==> rows[row.tx.hash] == row && row.tx in extra)
      && (!IsExpired(row, expired) ==> row.tx.hash in rows)
    ensures PoolOk(senders) && Mirrors(senders, rows, extra) && PooledAreFresh(senders, rows, expired)
  {
    RowsPointwise(rows);
    AheadStep(list, snapshot, i);
    hide Pooled, Stored, Ahead, PoolOk;
  }

  lemma StillLeft(rows: map<nat, Row>, extra: set<Tx>, extra': set<Tx>, snapshot: map<nat, Row>, left: set<nat>,
                  tx: Tx, expired: int)
    requires RowsOk(rows) && RowsOk(snapshot) && left <= snapshot.Keys && tx.hash !in left
    requires forall h :: h in rows ==> h in snapshot && rows[h] == snapshot[h]
    requires extra <= Stored(rows)
    requires forall h :: h in left && !IsExpired(snapshot[h], expired) ==> snapshot[h].tx in extra
    requires forall x :: x in extra - {tx} && x.hash in rows && !IsExpired(rows[x.hash], expired) ==> x in extra'
    ensures forall h :: h in left && !IsExpired(snapshot[h], expired) ==> snapshot[h].tx in extra'
  {
    RowsPointwise(rows);
    hide Stored;
    forall h | h in left && !IsExpired(snapshot[h], expired) ensures snapshot[h].tx in extra' {
      var x := snapshot[h].tx;
      assert x.hash == h && x in extra && x in Stored(rows);
    }
  }

  lemma StillFresh(senders: Senders, rows: map<nat, Row>, row: Row, expired: int, senders': Senders,
                   rows': map<nat, Row>, extra': set<Tx>)
    requires PooledAreFresh(senders, rows, expired) && Mirrors(senders', rows', extra')
    requires Pooled(senders') <= Pooled(senders) + {row.tx} && (IsExpired(row, expired) ==> senders' == senders)
    requires forall h :: h in rows' ==> h in rows && rows'[h] == rows[h]
    requires row.tx.hash in rows ==> rows[row.tx.hash] == row
    ensures PooledAreFresh(senders', rows', expired)
  {
    RowsPointwise(rows');
    hide Pooled, Stored;
    forall x | x in Pooled(senders') ensures x.hash in rows' && rows'[x.hash].blockNumber > expired {
      assert x in Stored(rows');
    }
  }

  lemma StillLoading(senders: Senders, rows: map<nat, Row>, extra: set<Tx>, snapshot: map<nat, Row>, list: seq<Row>,
                     i: nat, expired: int, senders': Senders, rows': map<nat, Row>, extra': set<Tx>)
    requires Loading(senders, rows, extra, snapshot, Ahead(list, i), expired) && Lists(list, snapshot) && i < |list|
    requires PoolOk(senders') && Mirrors(senders', rows', extra') && extra' <= extra - {list[i].tx}
    requires Pooled(senders') <= Pooled(senders) + {list[i].tx}
    requires IsExpired(list[i], expired) ==> senders' == senders
    requires forall k :: k in rows' ==> k in rows && rows'[k] == rows[k]
    requires forall x :: x in extra - {list[i].tx} && x.hash in rows && !IsExpired(rows[x.hash], expired) ==>
      x in extra'
    ensures Loading(senders', rows', extra', snapshot, Ahead(list, i + 1), expired)
  {
    hide Pooled, Stored, PoolOk, Ahead, PooledAreFresh;
    var row, left := list[i], Ahead(list, i + 1);
    AheadStep(list, snapshot, i);
    StillLeft(rows, extra, extra', snapshot, left, row.tx, expired);
    StillFresh(senders, rows, row, expired, senders', rows', extra');
    RowsPointwise(snapshot);
    assert row.tx in Stored(snapshot);
    forall x | x in extra' ensures x.hash in left {
      assert snapshot[x.hash].tx == x;
    }
  }

  lemma Loaded(senders: Senders, rows: map<nat, Row>, extra: set<Tx>, snapshot: map<nat, Row>, list: seq<Row>,
               expired: int)
    requires Loading(senders, rows, extra, snapshot, Ahead(list, |list|), expired)
    ensures PoolOk(senders) && Mirrors(senders, rows, {}) && Pooled(senders) <= Stored(snapshot)
    ensures forall h :: h in rows ==> h in snapshot && rows[h] == snapshot[h]
  {
    hide Pooled, Stored, PoolOk;
    assert extra == {};
  }

  lemma MirrorWithout(senders: Senders, rows: map<nat, Row>, extra: set<Tx>, tx: Tx)
    requires Mirrors(senders, rows, extra)
    requires tx.hash in rows ==> tx in extra && rows[tx.hash].tx == tx
    ensures Mirrors(senders, rows - {tx.hash}, extra - {tx})
  {
    RowsPointwise(rows);
    DeletedIs(rows, {tx});
    assert Hashes({tx}) == {tx.hash};
    assert tx in extra ==> tx in Stored(rows);
  }

  /** What a sender lost by re-adding leaves the storage too. */
  lemma LossMirrors(senders: Senders, rows: map<nat, Row>, after: Senders, removed: seq<Tx>)
    requires Mirrors(senders, rows, {})
    requires Pooled(after) !! TxSet(removed) && Pooled(senders) == Pooled(after) + TxSet(removed)
    ensures Mirrors(after, rows - Hashes(TxSet(removed)), {})
  {
    hide Pooled, Stored, TxSet;
    DeletedIs(rows, TxSet(removed));
    assert Stored(rows) - TxSet(removed) == Pooled(after) + {};
  }

  lemma StoredPlus(rows: map<nat, Row>, row: Row)
    requires RowsOk(rows) && row.tx.hash !in rows
    ensures RowsOk(rows[row.tx.hash := row])
    ensures Stored(rows[row.tx.hash := row]) == Stored(rows) + {row.tx} && row.tx !in Stored(rows)
  {
    var more := rows[row.tx.hash := row];
    forall x | x in Stored(rows) ensures x in Stored(more) && x != row.tx {
      StoredAtHash(rows, x);
      assert more[x.hash].tx == x;
    }
    assert more[row.tx.hash].tx == row.tx;
  }

  lemma Entered(senders: Senders, rows: map<nat, Row>, row: Row)
    requires Mirrors(senders, rows, {}) && row.tx.hash !in rows
    ensures Mirrors(senders, rows[row.tx.hash := row], {row.tx})
  {
    hide Pooled, Stored;
    StoredPlus(rows, row);
  }

  class Service {
    const maxTransactionsInPool: nat
    const maxTransactionAge: nat
    var senders: Senders
    var rows: map<nat, Row>
    var next: nat

    /** After every public call: storage and mempool hold the same transactions, within the limit of the pool. */
    ghost predicate Valid() reads this {
      && PoolOk(senders) && Mirrors(senders, rows, {}) && |Pooled(senders)| <= maxTransactionsInPool
      && Numbered(rows, next)
    }

    constructor (maxTransactionsInPool: nat, maxTransactionAge: nat)
      ensures Valid() && senders == map[] && rows == map[] && next == 0
      ensures this.maxTransactionsInPool == maxTransactionsInPool && this.maxTransactionAge == maxTransactionAge
    {
      this.maxTransactionsInPool, this.maxTransactionAge := maxTransactionsInPool, maxTransactionAge;
      senders, rows, next := map[], map[], 0;
    }

    method GetPoolSize() returns (size: nat)
      requires PoolOk(senders)
      ensures size == |Pooled(senders)|
    {
      size := 0;
      var left := senders.Keys;
      assert Pooled(senders - left) == {};
      while left != {}
        invariant left <= senders.Keys && size == |Pooled(senders - left)|
        decreases left
      {
        var a :| a in left;
        SizeStep(senders, left, a);
        size := size + |senders[a].txs|;
        left := left - {a};
      }
      assert senders - left == senders;
    }

    /** Removes every expired row and, with it, whatever of its sender can no longer follow it. */
    method RemoveOldTransactions(expiredBlockNumber: int, ghost extra: set<Tx>) returns (ghost rest: set<Tx>)
      requires PoolOk(senders) && Mirrors(senders, rows, extra)
      modifies this`senders, this`rows
      ensures PoolOk(senders) && Mirrors(senders, rows, rest) && Pooled(senders) <= old(Pooled(senders))
      ensures forall h :: h in rows ==> h in old(rows) && rows[h] == old(rows)[h]
      ensures forall h :: h in rows ==> rows[h].blockNumber > expiredBlockNumber
      ensures rest <= extra
      ensures forall x :: x in extra && old(rows)[x.hash].blockNumber > expiredBlockNumber ==> x in rest
      ensures NoGaps(senders, old(senders)) && KeepsSurvivors(senders, old(senders), old(rows), expiredBlockNumber)
      ensures forall x :: x in Pooled(senders) ==> Survives(old(senders), old(rows), x, expiredBlockNumber)
      ensures PooledAreFresh(old(senders), old(rows), expiredBlockNumber) ==> senders == old(senders)
      ensures NoneExpired(old(rows), expiredBlockNumber) ==> rows == old(rows) && rest == extra
    {
      hide Pooled, Stored, NoGaps, KeepsSurvivors, Survives, HasBefore;
      AllSurvive(senders, rows, expiredBlockNumber);
      RowsPointwise(rows);
      rest := extra;
      var snapshot := rows;
      var left := set h | h in snapshot && IsExpired(snapshot[h], expiredBlockNumber);
      while left != {}
        invariant PoolOk(senders) && Mirrors(senders, rows, rest) && Pooled(senders) <= old(Pooled(senders))
        invariant forall h :: h in rows ==> h in snapshot && rows[h] == snapshot[h]
        invariant forall h :: h in left ==> h in snapshot && IsExpired(snapshot[h], expiredBlockNumber)
        invariant forall h :: h in rows && IsExpired(rows[h], expiredBlockNumber) ==> h in left
        invariant rest <= extra
        invariant forall x :: x in extra && x !in rest ==> IsExpired(snapshot[x.hash], expiredBlockNumber)
        invariant NoGaps(senders, old(senders)) && KeepsSurvivors(senders, old(senders), snapshot, expiredBlockNumber)
        invariant PooledAreFresh(old(senders), snapshot, expiredBlockNumber) ==> senders == old(senders)
        invariant NoneExpired(snapshot, expiredBlockNumber) ==> left == {} && rows == old(rows) && rest == extra
        decreases left
      {
        var h :| h in left;
        ghost var current := senders;
        rest := RemoveOld(snapshot[h].tx, rest);
        NoGapsOn(old(senders), current, senders);
        SurvivorsOutlive(old(senders), current, senders, snapshot, h, expiredBlockNumber);
        left := left - {h};
      }
      OnlySurvivors(old(senders), senders, snapshot, rows, rest, expiredBlockNumber);
    }

    method RemoveOld(tx: Tx, ghost extra: set<Tx>) returns (ghost rest: set<Tx>)
      requires PoolOk(senders) && Mirrors(senders, rows, extra)
      requires tx.hash in rows ==> rows[tx.hash].tx == tx
      modifies this`senders, this`rows
      ensures PoolOk(senders) && Mirrors(senders, rows, rest) && Pooled(senders) <= old(Pooled(senders))
      ensures tx.hash !in rows && rest == extra - {tx}
      ensures forall h :: h in rows ==> h in old(rows) && rows[h] == old(rows)[h]
      ensures NoGaps(senders, old(senders))
      ensures forall x :: x in old(Pooled(senders)) && x !in Pooled(senders) ==> HasBefore(old(senders), x, tx.hash)
      ensures (forall x :: x in old(Pooled(senders)) ==> x.hash != tx.hash) ==> senders == old(senders)
    {
      hide NoGaps, HasBefore, Pooled, Stored, TxSet, Hashes, MempoolRemove, PoolOk;
      RemovedAreLast(senders, tx.from, tx.hash);
      MempoolRemoveIs(senders, tx.from, tx.hash);
      NoneLeft(senders, tx.from, tx.hash);
      if forall x :: x in Pooled(senders) ==> x.hash != tx.hash {
        NothingRemoved(senders, tx.from, tx.hash);
      }
      RowsPointwise(rows);
      var (after, removed) := MempoolRemove(senders, tx.from, tx.hash);
      rest := extra - {tx};
      var gone := TxSet(removed) + {tx};
      DeletedIs(rows, gone);
      HashesHold(gone, tx);
      senders := after;
      rows := rows - Hashes(gone);
    }

    method RemoveLowestPriorityTransaction(ghost extra: set<Tx>) returns (tx: Tx)
      requires PoolOk(senders) && Mirrors(senders, rows, extra) && Pooled(senders) != {}
      modifies this`senders, this`rows
      ensures PoolOk(senders) && Mirrors(senders, rows, extra)
      ensures IsLowest(old(senders), tx) && Pooled(senders) == old(Pooled(senders)) - {tx} && tx in old(Pooled(senders))
      ensures senders == MempoolRemove(old(senders), tx.from, tx.hash).0
      ensures forall h :: h in rows ==> h in old(rows) && rows[h] == old(rows)[h]
      ensures NoGaps(senders, old(senders))
    {
      hide NoGaps, HasBefore, Pooled, Stored, TxSet, Hashes, MempoolRemove, PoolOk, IsLowest;
      tx := GetLowest();
      RemovedAreLast(senders, tx.from, tx.hash);
      EvictionMirrors(senders, rows, extra, tx);
      var (after, removed) := MempoolRemove(senders, tx.from, tx.hash);
      senders := after;
      rows := rows - Hashes(TxSet(removed));
      HashOfOne(tx);
    }

    method GetLowest() returns (tx: Tx)
      requires PoolOk(senders) && Pooled(senders) != {}
      ensures IsLowest(senders, tx)
    {
      forall a | a in senders ensures senders[a].txs != [] && LastOf(senders, a).from == a {
        assert SenderOk(a, senders[a]);
      }
      var best :| best in senders;
      var left := senders.Keys - {best};
      while left != {}
        invariant best in senders && left <= senders.Keys
        invariant forall b :: b in senders && b !in left ==>
          LastOf(senders, b).gasPrice >= LastOf(senders, best).gasPrice
        decreases left
      {
        var a :| a in left;
        if LastOf(senders, a).gasPrice < LastOf(senders, best).gasPrice {
          best := a;
        }
        left := left - {a};
      }
      tx := LastOf(senders, best);
    }

    method CleanUp(expiredBlockNumber: int, ghost extra: set<Tx>) returns (ghost rest: set<Tx>)
      requires PoolOk(senders) && Mirrors(senders, rows, extra)
      modifies this`senders, this`rows
      ensures PoolOk(senders) && Mirrors(senders, rows, rest) && Pooled(senders) <= old(Pooled(senders))
      ensures |Pooled(senders)| <= maxTransactionsInPool
      ensures forall h :: h in rows ==> h in old(rows) && rows[h] == old(rows)[h]
      ensures forall h :: h in rows ==> rows[h].blockNumber > expiredBlockNumber
      ensures rest <= extra
      ensures forall x :: x in extra && old(rows)[x.hash].blockNumber > expiredBlockNumber ==> x in rest
      ensures NoGaps(senders, old(senders))
      ensures |Pooled(senders)| == maxTransactionsInPool ||
              KeepsSurvivors(senders, old(senders), old(rows), expiredBlockNumber)
      ensures |old(Pooled(senders))| <= maxTransactionsInPool ==>
        PooledAreFresh(old(senders), old(rows), expiredBlockNumber) ==> senders == old(senders)
      ensures NoneExpired(old(rows), expiredBlockNumber) && |old(Pooled(senders))| <= maxTransactionsInPool ==>
        rows == old(rows) && rest == extra
    {
      hide Pooled, Stored, NoGaps, KeepsSurvivors, Survives, PooledAreFresh;
      rest := RemoveOldTransactions(expiredBlockNumber, extra);
      SubsetCount(Pooled(senders), old(Pooled(senders)));
      var size := GetPoolSize();
      while size > maxTransactionsInPool
        invariant PoolOk(senders) && Mirrors(senders, rows, rest) && Pooled(senders) <= old(Pooled(senders))
        invariant forall h :: h in rows ==> h in old(rows) && rows[h] == old(rows)[h]
        invariant forall h :: h in rows ==> !IsExpired(rows[h], expiredBlockNumber)
        invariant size == |Pooled(senders)| && NoGaps(senders, old(senders))
        invariant size >= maxTransactionsInPool ||
                  KeepsSurvivors(senders, old(senders), old(rows), expiredBlockNumber)
        invariant |old(Pooled(senders))| <= maxTransactionsInPool ==> size <= maxTransactionsInPool
        invariant |old(Pooled(senders))| <= maxTransactionsInPool ==>
          PooledAreFresh(old(senders), old(rows), expiredBlockNumber) ==> senders == old(senders)
        invariant NoneExpired(old(rows), expiredBlockNumber) && |old(Pooled(senders))| <= maxTransactionsInPool ==>
          rows == old(rows) && rest == extra
        decreases size
      {
        ghost var current := senders;
        NotEmpty(senders);
        var gone := RemoveLowestPriorityTransaction(rest);
        NoGapsOn(old(senders), current, senders);
        size := GetPoolSize();
      }
    }

    /** Adds to a full pool: only what pays more than the lowest transaction, which has to go for it. */
    method Outbid(tx: Tx, account: Account, env: Env, ghost extra: set<Tx>) returns (ok: bool)
      requires PoolOk(senders) && Mirrors(senders, rows, extra) && |Pooled(senders)| == maxTransactionsInPool
      requires tx in extra
      modifies this`senders, this`rows
      ensures PoolOk(senders) && |Pooled(senders)| <= maxTransactionsInPool
      ensures Pooled(senders) <= old(Pooled(senders)) + {tx}
      ensures forall h :: h in rows ==> h in old(rows) && rows[h] == old(rows)[h]
      ensures Mirrors(senders, rows, if ok then extra - {tx} else extra)
      ensures OutbidsOrFails(old(senders), tx, account, env, ok, senders)
    {
      hide Pooled, Stored, NoGaps, MempoolAdd, MempoolRemove, IsLowest, PoolOk, Adds, OutbidsOrFails, Mirrors;
      var size := GetPoolSize();
      if size == 0 {
        NothingToOutbid(senders, tx, account, env);
        return false;
      }
      NotEmpty(senders);
      var lowest := GetLowest();
      if tx.gasPrice <= lowest.gasPrice {
        OutbidFails(senders, lowest, tx, account, env);
        return false;
      }
      var gone := RemoveLowestPriorityTransaction(extra);
      ok := MempoolAddTransaction(tx, account, env, extra);
      OutbidWins(old(senders), lowest, gone, tx, account, env, ok, senders);
    }

    /** Makes room if the pool is full, then adds. Returning normally does not mean the transaction is pooled: when a
        replacement falls back to re-adding, the new transaction may be dropped too. */
    method AddTransactionToMempool(tx: Tx, expiredBlockNumber: int, account: Account, env: Env, ghost extra: set<Tx>)
      returns (ok: bool, ghost rest: set<Tx>, ghost cleaned: Senders)
      requires PoolOk(senders) && Mirrors(senders, rows, extra) && |Pooled(senders)| <= maxTransactionsInPool
      requires tx in extra && tx.hash in rows && !IsExpired(rows[tx.hash], expiredBlockNumber)
      modifies this`senders, this`rows
      ensures PoolOk(senders) && |Pooled(senders)| <= maxTransactionsInPool
      ensures Pooled(senders) <= old(Pooled(senders)) + {tx}
      ensures forall h :: h in rows ==> h in old(rows) && rows[h] == old(rows)[h]
      ensures rest <= extra && tx in rest
      ensures forall x :: x in extra && old(rows)[x.hash].blockNumber > expiredBlockNumber ==> x in rest
      ensures Mirrors(senders, rows, if ok then rest - {tx} else rest)
      ensures !ok ==> tx !in Pooled(senders)
      ensures |old(Pooled(senders))| < maxTransactionsInPool ==>
        rows == RowsWithout(old(rows), MempoolAdd(old(senders), tx, account, env))
      ensures CleanedUp(cleaned, old(senders), old(rows), expiredBlockNumber, maxTransactionsInPool)
      ensures Resolves(cleaned, tx, account, env, maxTransactionsInPool, ok, senders)
    {
      hide Pooled, Stored, NoGaps, KeepsSurvivors, MempoolAdd, MempoolRemove, IsLowest, PoolOk, Adds, OutbidsOrFails,
           PooledAreFresh, CleanedUp, Resolves, Mirrors, RowsWithout;
      cleaned := senders;
      rest := extra;
      ok := false;
      var size := GetPoolSize();
      if size >= maxTransactionsInPool {
        rest := CleanUp(expiredBlockNumber, extra);
        cleaned := senders;
        FreshRows(senders, rows, rest, old(rows), expiredBlockNumber);
        CleanedNow(cleaned, old(senders), old(rows), expiredBlockNumber, maxTransactionsInPool);
        size := GetPoolSize();
      } else {
        NotCleaned(senders, rows, expiredBlockNumber, maxTransactionsInPool);
      }
      if size >= maxTransactionsInPool {
        ok := Outbid(tx, account, env, rest);
      } else {
        ok := MempoolAddTransaction(tx, account, env, rest);
      }
      NotPooled(senders, rows, if ok then rest - {tx} else rest);
      ResolvesNow(cleaned, tx, account, env, maxTransactionsInPool, ok, senders);
    }

    method MempoolAddTransaction(tx: Tx, account: Account, env: Env, ghost extra: set<Tx>) returns (ok: bool)
      requires PoolOk(senders) && Mirrors(senders, rows, extra) && |Pooled(senders)| < maxTransactionsInPool
      requires tx in extra
      modifies this`senders, this`rows
      ensures PoolOk(senders) && |Pooled(senders)| <= maxTransactionsInPool
      ensures Pooled(senders) <= old(Pooled(senders)) + {tx}
      ensures forall h :: h in rows ==> h in old(rows) && rows[h] == old(rows)[h]
      ensures rows == RowsWithout(old(rows), MempoolAdd(old(senders), tx, account, env))
      ensures Adds(old(senders), tx, account, env, ok, senders)
      ensures Mirrors(senders, rows, if ok then extra - {tx} else extra)
    {
      hide Pooled, Stored, MempoolAdd, TxSet, Chained, PoolOk, Hashes, Mirrors;
      var result := MempoolAdd(senders, tx, account, env);
      ok := result.Accepted?;
      if ok {
        NotPooled(senders, rows, extra);
        MempoolAddIs(senders, tx, account, env, result.senders, result.removed);
        AdditionMirrors(senders, rows, extra, tx, result.senders, result.removed);
        senders := result.senders;
        rows := rows - Hashes(TxSet(result.removed));
      }
    }

    /** A transaction whose hash is stored already is refused and nothing changes. Whatever else happens, storage and
        mempool agree afterwards and only the new transaction can have come in. */
    method AddTransaction(tx: Tx, blockNumber: int, account: Account, env: Env)
      returns (ok: bool, ghost cleaned: Senders)
      requires Valid() && maxTransactionAge >= 1
      modifies this
      ensures Valid()
      ensures Pooled(senders) <= old(Pooled(senders)) + {tx}
      ensures tx.hash in old(rows) ==> !ok && senders == old(senders) && rows == old(rows)
      ensures tx.hash !in old(rows) && !ok ==> tx.hash !in rows && tx !in Pooled(senders)
      ensures tx.hash !in old(rows) && |old(Pooled(senders))| < maxTransactionsInPool ==>
        var more := old(rows)[tx.hash := Row(old(next), blockNumber, tx)];
        rows == if ok then RowsWithout(more, MempoolAdd(old(senders), tx, account, env)) else old(rows)
      ensures tx.hash !in old(rows) ==>
        && CleanedUp(cleaned, old(senders), old(rows), blockNumber - maxTransactionAge, maxTransactionsInPool)
        && Resolves(cleaned, tx, account, env, maxTransactionsInPool, ok, senders)
      ensures next == if tx.hash in old(rows) then old(next) else old(next) + 1
    {
      hide Pooled, Stored, MempoolAdd, PoolOk, TxSet, Hashes, Numbered, CleanedUp, Resolves, Mirrors,
           RowsWithout;
      cleaned := senders;
      if tx.hash in rows {
        return false, cleaned;
      }
      Store(tx, blockNumber);
      ghost var more := rows;
      ghost var rest;
      ok, rest, cleaned := AddTransactionToMempool(tx, blockNumber - maxTransactionAge, account, env, {tx});
      CleanedAmongMore(cleaned, old(senders), old(rows), more, blockNumber - maxTransactionAge, maxTransactionsInPool);
      assert rest - {tx} == {};
      FewerNumbered(more, rows, next);
      if !ok {
        RejectedInRoom(cleaned, old(senders), old(rows), tx, account, env, blockNumber - maxTransactionAge,
                       maxTransactionsInPool, senders, more);
        TakenBack(old(rows), more[tx.hash]);
        RemoveStored(tx, rest);
      }
    }

    /** Inserts a row under the next number. */
    method Store(tx: Tx, blockNumber: int)
      requires Mirrors(senders, rows, {}) && Numbered(rows, next) && tx.hash !in rows
      modifies this`rows, this`next
      ensures rows == old(rows)[tx.hash := Row(old(next), blockNumber, tx)] && next == old(next) + 1
      ensures Mirrors(senders, rows, {tx}) && Numbered(rows, next)
    {
      Entered(senders, rows, Row(next, blockNumber, tx));
      OneMoreNumbered(rows, Row(next, blockNumber, tx));
      rows := rows[tx.hash := Row(next, blockNumber, tx)];
      next := next + 1;
    }

    method RemoveStored(tx: Tx, ghost extra: set<Tx>)
      requires Mirrors(senders, rows, extra) && Numbered(rows, next)
      requires tx.hash in rows ==> tx in extra && rows[tx.hash].tx == tx
      modifies this`rows
      ensures rows == old(rows) - {tx.hash} && Mirrors(senders, rows, extra - {tx}) && Numbered(rows, next)
    {
      MirrorWithout(senders, rows, extra, tx);
      FewerNumbered(rows, rows - {tx.hash}, next);
      rows := rows - {tx.hash};
    }

    /** Rebuilds the chains of some senders on their new accounts; what no longer fits is dropped. */
    method MempoolReAddTransactions(addresses: seq<Address>, accounts: Address -> Account, env: Env)
      requires PoolOk(senders) && Mirrors(senders, rows, {})
      modifies this`senders, this`rows
      ensures PoolOk(senders) && Mirrors(senders, rows, {}) && Pooled(senders) <= old(Pooled(senders))
      ensures senders == ReAddAll(old(senders), addresses, accounts, env)
      ensures forall h :: h in rows ==> h in old(rows) && rows[h] == old(rows)[h]
    {
      hide Pooled, Stored, MempoolReAdd, PoolOk, Mirrors, TxSet, Hashes, ReAddAll;
      ReAddAllNone(senders, accounts, env);
      for k := 0 to |addresses|
        invariant PoolOk(senders) && Mirrors(senders, rows, {}) && Pooled(senders) <= old(Pooled(senders))
        invariant senders == ReAddAll(old(senders), addresses[..k], accounts, env)
        invariant forall h :: h in rows ==> h in old(rows) && rows[h] == old(rows)[h]
      {
        var a := addresses[k];
        ReAddAllStep(old(senders), addresses, k, accounts, env);
        MempoolReAddIs(senders, a, accounts(a), env);
        var (after, removed) := MempoolReAdd(senders, a, accounts(a), env);
        LossMirrors(senders, rows, after, removed);
        senders := after;
        rows := rows - Hashes(TxSet(removed));
      }
      assert addresses[..|addresses|] == addresses;
    }

    /** After a commit every affected sender's chain is rebuilt on its new account, and the pool is cleaned up. */
    method Commit(addresses: seq<Address>, blockNumber: int, accounts: Address -> Account, env: Env)
      requires Valid()
      modifies this`senders, this`rows
      ensures Valid() && Pooled(senders) <= old(Pooled(senders))
      ensures forall h :: h in rows ==> h in old(rows) && rows[h] == old(rows)[h]
      ensures forall h :: h in rows ==> rows[h].blockNumber + maxTransactionAge > blockNumber
      ensures var rebuilt := ReAddAll(old(senders), addresses, accounts, env);
        && Pooled(senders) <= Pooled(rebuilt) && NoGaps(senders, rebuilt)
        && (|Pooled(senders)| == maxTransactionsInPool ||
            KeepsSurvivors(senders, rebuilt, old(rows), blockNumber - maxTransactionAge))
    {
      hide Pooled, Stored, NoGaps, KeepsSurvivors, PoolOk, Mirrors, ReAddAll, Numbered, PooledAreFresh, NoneExpired;
      MempoolReAddTransactions(addresses, accounts, env);
      ghost var rebuilt, rows1 := senders, rows;
      ghost var rest := CleanUp(blockNumber - maxTransactionAge, {});
      assert rest == {};
      FewerNumbered(old(rows), rows, next);
      if KeepsSurvivors(senders, rebuilt, rows1, blockNumber - maxTransactionAge) {
        SameSurvivors(senders, rebuilt, rows1, old(rows), blockNumber - maxTransactionAge);
      }
    }

    /** Reads all rows in the order of their numbers. */
    method GetAllTransactions() returns (list: seq<Row>)
      requires RowsOk(rows) && Numbered(rows, next)
      ensures Lists(list, rows)
    {
      list := [];
      for n := 0 to next
        invariant ListsUpTo(list, rows, n)
      {
        if exists h :: h in rows && rows[h].n == n {
          var h :| h in rows && rows[h].n == n;
          ListsOneMore(list, rows, h);
          list := list + [rows[h]];
        } else {
          assert ListsUpTo(list, rows, n + 1);
        }
      }
    }

    /** Rebuilds the mempool from the storage alone, as at start: the rows are offered to an empty mempool in their
        order. Whatever the storage held, both agree afterwards. */
    method ReAddTransactions(blockNumber: int, accounts: Address -> Account, env: Env) returns (ghost list: seq<Row>)
      requires RowsOk(rows) && Numbered(rows, next)
      modifies this`senders, this`rows
      ensures Valid() && Pooled(senders) <= old(Stored(rows))
      ensures forall h :: h in rows ==> h in old(rows) && rows[h] == old(rows)[h]
      ensures Lists(list, old(rows))
      ensures Reloads(list, blockNumber - maxTransactionAge, accounts, env, maxTransactionsInPool, senders)
    {
      hide Pooled, Stored, Reloads, Offers, Numbered, Loading, Lists, Ahead, PoolOk, Mirrors, PooledAreFresh;
      senders := map[];
      var snapshot := rows;
      var stored := GetAllTransactions();
      list := stored;
      var expired := blockNumber - maxTransactionAge;
      ghost var extra := Stored(rows);
      StartLoading(snapshot, list, expired);
      ReloadsNothing(expired, accounts, env, maxTransactionsInPool);
      for i := 0 to |stored|
        invariant list == stored && |Pooled(senders)| <= maxTransactionsInPool
        invariant Loading(senders, rows, extra, snapshot, Ahead(list, i), expired)
        invariant Reloads(list[..i], expired, accounts, env, maxTransactionsInPool, senders)
      {
        var row := stored[i];
        PendingRow(senders, rows, extra, snapshot, list, i, expired);
        ghost var senders0, rows0, extra0 := senders, rows, extra;
        extra := ReAddOne(row, expired, accounts(row.tx.from), env, extra);
        StillLoading(senders0, rows0, extra0, snapshot, list, i, expired, senders, rows, extra);
        ReloadsOneMore(list, i, expired, accounts, env, maxTransactionsInPool, senders0, senders);
      }
      assert list[..|list|] == list;
      Loaded(senders, rows, extra, snapshot, list, expired);
      FewerNumbered(snapshot, rows, next);
    }

    method ReAddOne(row: Row, expired: int, account: Account, env: Env, ghost extra: set<Tx>)
      returns (ghost rest: set<Tx>)
      requires PoolOk(senders) && Mirrors(senders, rows, extra) && |Pooled(senders)| <= maxTransactionsInPool
      requires row.tx.hash in rows ==> rows[row.tx.hash] == row && row.tx in extra
      requires !IsExpired(row, expired) ==> row.tx.hash in rows
      requires PooledAreFresh(senders, rows, expired)
      modifies this`senders, this`rows
      ensures PoolOk(senders) && Mirrors(senders, rows, rest) && |Pooled(senders)| <= maxTransactionsInPool
      ensures Pooled(senders) <= old(Pooled(senders)) + {row.tx}
      ensures Offers(old(senders), row, expired, account, env, maxTransactionsInPool, senders)
      ensures IsExpired(row, expired) ==> senders == old(senders)
      ensures forall h :: h in rows ==> h in old(rows) && rows[h] == old(rows)[h]
      ensures rest <= extra - {row.tx}
      ensures forall x :: x in extra - {row.tx} && x.hash in old(rows) && !IsExpired(old(rows)[x.hash], expired) ==>
        x in rest
    {
      hide Pooled, Stored, PoolOk, Mirrors, Adds, OutbidsOrFails, NoGaps, KeepsSurvivors, PooledAreFresh;
      var ok := false;
      rest := extra;
      if !IsExpired(row, expired) {
        ghost var cleaned;
        ok, rest, cleaned := AddTransactionToMempool(row.tx, expired, account, env, extra);
      }
      if !ok {
        MirrorWithout(senders, rows, rest, row.tx);
        rows := rows - {row.tx.hash};
      }
      rest := rest - {row.tx};
    }

    method Flush()
      modifies this`senders, this`rows
      ensures Valid() && senders == map[] && rows == map[]
    {
      senders, rows := map[], map[];
    }
  }
}
