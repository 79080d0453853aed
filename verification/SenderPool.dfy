/** The pooled transactions of one sender: a chain of consecutive nonces on top of the account, paid for by its
    balance. `SenderMempool` and `SenderState` keep it through adding, removing, replacing and re-adding. */
module SenderPool {

  type Address = nat

  datatype Tx = Tx(hash: nat, from: Address, nonce: int, gasPrice: nat, gasLimit: nat, value: nat, size: nat,
                   network: nat)

  /** What the chain says about the sender when the wallet is read. */
  datatype Account = Account(nonce: int, balance: nat)

  /** The configuration, and the checks that ask the EVM and the legacy second signature. */
  datatype Env = Env(maxTransactionBytes: nat, chainId: nat, maxTransactionsPerSender: nat, allowed: Address -> bool,
                     preverify: Tx -> bool)

  /** `account` is what the wallet was last read from; `nonce` and `balance` are the wallet's own. */
  datatype Sender = Sender(account: Account, nonce: int, balance: int, txs: seq<Tx>)

  function Cost(tx: Tx): int {
    tx.value + tx.gasPrice * tx.gasLimit
  }

  function TotalCost(txs: seq<Tx>): int {
    if txs == [] then 0 else TotalCost(txs[..|txs| - 1]) + Cost(txs[|txs| - 1])
  }

  function SumOfValues(txs: seq<Tx>): int {
    if txs == [] then 0 else SumOfValues(txs[..|txs| - 1]) + txs[|txs| - 1].value
  }

  /** The most that can be paid for gas. */
  function SumOfFees(txs: seq<Tx>): int {
    if txs == [] then 0
    else SumOfFees(txs[..|txs| - 1]) + txs[|txs| - 1].gasPrice * txs[|txs| - 1].gasLimit
  }

  lemma {:induction false} TotalCostIs(txs: seq<Tx>)
    ensures TotalCost(txs) == SumOfValues(txs) + SumOfFees(txs)
  {
    if txs == [] {
    } else {
      TotalCostIs(txs[..|txs| - 1]);
    }
  }

  /** The pooled nonces are consecutive from the account's and end right before the wallet's, and the wallet's balance
      is the account's without what the pooled transactions transfer and without what they may pay for gas. */
  ghost predicate Chained(s: Sender) {
    && s.nonce == s.account.nonce + |s.txs|
    && s.balance == s.account.balance - SumOfValues(s.txs) - SumOfFees(s.txs)
    && s.balance >= 0
    && (forall i :: 0 <= i < |s.txs| ==> s.txs[i].nonce == s.account.nonce + i)
  }

  function Fresh(account: Account): Sender {
    Sender(account, account.nonce, account.balance, [])
  }

  // SenderState

  predicate Validates(s: Sender, tx: Tx, nonceOffset: int, refund: int, env: Env) {
    && tx.size <= env.maxTransactionBytes
    && (tx.network == 0 || tx.network == env.chainId)
    && s.nonce + nonceOffset == tx.nonce
    && s.balance + refund - Cost(tx) >= 0
    && env.preverify(tx)
  }

  function Applied(s: Sender, tx: Tx): Sender {
    s.(nonce := s.nonce + 1, balance := s.balance - Cost(tx))
  }

  // SenderMempool

  predicate Admits(s: Sender, tx: Tx, env: Env) {
    (|s.txs| < env.maxTransactionsPerSender || env.allowed(tx.from)) && Validates(s, tx, 0, 0, env)
  }

  function Add(s: Sender, tx: Tx): Sender {
    Applied(s, tx).(txs := s.txs + [tx])
  }

  /** Adds what is admitted, in order, and returns the rest. */
  function AddEach(s: Sender, txs: seq<Tx>, env: Env): (r: (Sender, seq<Tx>))
    decreases |txs|
  {
    if txs == [] then (s, [])
    else
      var (t, removed) := AddEach(s, txs[..|txs| - 1], env);
      var last := txs[|txs| - 1];
      if Admits(t, last, env) then (Add(t, last), removed) else (t, removed + [last])
  }

  /** The transactions from `index` on taken out, and the wallet given back their nonces and costs. */
  function Truncated(s: Sender, index: nat): Sender
    requires index <= |s.txs|
  {
    Sender(s.account, s.nonce - (|s.txs| - index), s.balance + TotalCost(s.txs[index..]), s.txs[..index])
  }

  function Reversed(txs: seq<Tx>): seq<Tx> {
    if txs == [] then [] else [txs[|txs| - 1]] + Reversed(txs[..|txs| - 1])
  }

  function IndexOf(txs: seq<Tx>, hash: nat): (i: nat)
    ensures i <= |txs|
    ensures i < |txs| ==> txs[i].hash == hash
    ensures forall k :: 0 <= k < i ==> txs[k].hash != hash
  {
    if txs == [] then 0 else if txs[0].hash == hash then 0 else 1 + IndexOf(txs[1..], hash)
  }

  /** Where the transactions at or above a nonce begin, looking from the latest one down. */
  function FirstAtLeast(txs: seq<Tx>, nonce: int): (i: nat)
    ensures i <= |txs|
  {
    if txs == [] || txs[|txs| - 1].nonce < nonce then |txs| else FirstAtLeast(txs[..|txs| - 1], nonce)
  }

  /** `Failed` stands for an exception: nothing changed. `Done` with nothing removed means no replacement happened. */
  datatype Outcome = Failed | Done(sender: Sender, removed: seq<Tx>)

  function Replace(s: Sender, tx: Tx, env: Env): Outcome {
    var index := FirstAtLeast(s.txs, tx.nonce);
    if index == |s.txs| then Done(s, [])
    else
      var same := s.txs[index];
      if same.nonce != tx.nonce then Failed
      else if tx.gasPrice <= same.gasPrice then Done(s, [])
      else if s.balance + Cost(same) >= Cost(tx) then
        if Validates(s, tx, tx.nonce - s.nonce, Cost(same), env)
        then Done(s.(balance := s.balance + Cost(same) - Cost(tx), txs := s.txs[index := tx]), [same])
        else Failed
      else
        var (t, removed) := AddEach(Truncated(s, index), [tx] + s.txs[index + 1..], env);
        Done(t, [same] + removed)
  }

  function ReAdd(s: Sender, account: Account, env: Env): (Sender, seq<Tx>) {
    AddEach(Fresh(account), s.txs, env)
  }

  // What every operation keeps

  lemma AddKeeps(s: Sender, tx: Tx, env: Env)
    requires Chained(s) && Admits(s, tx, env)
    ensures Chained(Add(s, tx))
  {
    assert Add(s, tx).txs[..|s.txs|] == s.txs;
  }

  lemma {:induction false} AddEachKeeps(s: Sender, txs: seq<Tx>, env: Env)
    requires Chained(s)
    ensures Chained(AddEach(s, txs, env).0) && AddEach(s, txs, env).0.account == s.account
    decreases |txs|
  {
    if txs == [] {
    } else {
      AddEachKeeps(s, txs[..|txs| - 1], env);
      var t := AddEach(s, txs[..|txs| - 1], env).0;
      if Admits(t, txs[|txs| - 1], env) {
        AddKeeps(t, txs[|txs| - 1], env);
      }
    }
  }

  lemma KeptOne(a: multiset<Tx>, offered: multiset<Tx>, kept: multiset<Tx>, removed: multiset<Tx>, x: multiset<Tx>)
    requires a + offered == kept + removed
    ensures a + (offered + x) == (kept + x) + removed
    ensures a + (offered + x) == kept + (removed + x)
  {
    assert a + (offered + x) == (a + offered) + x;
  }

  lemma AppendCounts(front: seq<Tx>, last: Tx)
    ensures multiset(front + [last]) == multiset(front) + multiset{last}
  {
  }

  /** Nothing is lost or made up: what was there and what was offered is what is kept and what is returned. */
  lemma {:induction false} AddEachConserves(s: Sender, txs: seq<Tx>, env: Env)
    ensures multiset(s.txs) + multiset(txs) == multiset(AddEach(s, txs, env).0.txs) + multiset(AddEach(s, txs, env).1)
    decreases |txs|
  {
    if txs == [] {
    } else {
      var front, last := txs[..|txs| - 1], txs[|txs| - 1];
      AddEachConserves(s, front, env);
      var t, removed := AddEach(s, front, env).0, AddEach(s, front, env).1;
      KeptOne(multiset(s.txs), multiset(front), multiset(t.txs), multiset(removed), multiset{last});
      assert txs == front + [last];
      AppendCounts(front, last);
      AppendCounts(t.txs, last);
      AppendCounts(removed, last);
      if Admits(t, last, env) {
        assert AddEach(s, txs, env).0.txs == t.txs + [last] && AddEach(s, txs, env).1 == removed;
      } else {
        assert AddEach(s, txs, env).0.txs == t.txs && AddEach(s, txs, env).1 == removed + [last];
      }
    }
  }

  lemma ReplacedCounts(txs: seq<Tx>, index: nat, tx: Tx)
    requires index < |txs|
    ensures multiset(txs) + multiset{tx} == multiset(txs[index := tx]) + multiset{txs[index]}
  {
  }

  lemma SwapCounts(a: multiset<Tx>, old_: multiset<Tx>, new_: multiset<Tx>, tail: multiset<Tx>, all: multiset<Tx>)
    requires a + (new_ + tail) == all
    ensures (a + (old_ + tail)) + new_ == all + old_
  {
    assert (a + (old_ + tail)) + new_ == (a + (new_ + tail)) + old_;
  }

  /** Dropping the tail from `index` and offering it again with its head replaced: the head is what goes missing. */
  lemma FallbackCounts(txs: seq<Tx>, index: nat, tx: Tx, kept: seq<Tx>, removed: seq<Tx>)
    requires index < |txs|
    requires multiset(txs[..index]) + multiset([tx] + txs[index + 1..]) == multiset(kept) + multiset(removed)
    ensures multiset(txs) + multiset{tx} == multiset(kept) + multiset([txs[index]] + removed)
  {
    var tail := txs[index + 1..];
    assert txs == txs[..index] + ([txs[index]] + tail);
    assert multiset(txs) == multiset(txs[..index]) + (multiset{txs[index]} + multiset(tail));
    assert multiset([tx] + tail) == multiset{tx} + multiset(tail);
    SwapCounts(multiset(txs[..index]), multiset{txs[index]}, multiset{tx}, multiset(tail),
               multiset(kept) + multiset(removed));
    assert multiset([txs[index]] + removed) == multiset{txs[index]} + multiset(removed);
  }

  lemma {:induction false} NonNegativeCost(txs: seq<Tx>)
    ensures TotalCost(txs) >= 0
  {
    if txs == [] {
    } else {
      NonNegativeCost(txs[..|txs| - 1]);
      var last := txs[|txs| - 1];
      assert last.gasPrice * last.gasLimit >= 0;
    }
  }

  lemma {:induction false} TotalCostSplits(a: seq<Tx>, b: seq<Tx>)
    ensures TotalCost(a + b) == TotalCost(a) + TotalCost(b)
    decreases |b|
  {
    hide Cost;
    if b == [] {
      assert a + b == a;
    } else {
      TotalCostSplits(a, b[..|b| - 1]);
      assert (a + b)[..|a + b| - 1] == a + b[..|b| - 1];
    }
  }

  /** Reverting the tail leaves exactly the chain of the first `index` transactions. */
  lemma TruncatedIs(s: Sender, index: nat)
    requires Chained(s) && index <= |s.txs|
    ensures Chained(Truncated(s, index)) && Truncated(s, index).account == s.account
    ensures Truncated(s, index).txs == s.txs[..index]
  {
    assert s.txs == s.txs[..index] + s.txs[index..];
    TotalCostIs(s.txs);
    TotalCostIs(s.txs[..index]);
    TotalCostSplits(s.txs[..index], s.txs[index..]);
    NonNegativeCost(s.txs[index..]);
  }

  lemma {:induction false} ReplacedCost(txs: seq<Tx>, index: nat, tx: Tx)
    requires index < |txs|
    ensures TotalCost(txs[index := tx]) == TotalCost(txs) - Cost(txs[index]) + Cost(tx)
    decreases |txs|
  {
    var front := txs[..|txs| - 1];
    if index == |txs| - 1 {
      assert txs[index := tx][..|txs| - 1] == front;
    } else {
      ReplacedCost(front, index, tx);
      assert txs[index := tx][..|txs| - 1] == front[index := tx];
    }
  }

  lemma {:induction false} FirstAtLeastIs(s: Sender, nonce: int, k: nat)
    requires k <= |s.txs|
    requires forall i :: 0 <= i < |s.txs| ==> s.txs[i].nonce == s.account.nonce + i
    ensures var i := FirstAtLeast(s.txs[..k], nonce);
      i <= k && (i < k ==> s.txs[i].nonce >= nonce) && (i > 0 ==> s.txs[i - 1].nonce < nonce)
    decreases k
  {
    var txs := s.txs[..k];
    if k == 0 || txs[k - 1].nonce < nonce {
    } else {
      assert txs[..k - 1] == s.txs[..k - 1];
      FirstAtLeastIs(s, nonce, k - 1);
    }
  }

  lemma InPlaceKeeps(s: Sender, tx: Tx, index: nat)
    requires Chained(s) && index < |s.txs| && s.txs[index].nonce == tx.nonce
    requires s.balance + Cost(s.txs[index]) >= Cost(tx)
    ensures Chained(s.(balance := s.balance + Cost(s.txs[index]) - Cost(tx), txs := s.txs[index := tx]))
  {
    hide Cost, TotalCost, SumOfValues, SumOfFees;
    TotalCostIs(s.txs);
    TotalCostIs(s.txs[index := tx]);
    ReplacedCost(s.txs, index, tx);
  }

  lemma FallbackKeeps(s: Sender, tx: Tx, env: Env, index: nat)
    requires Chained(s) && index < |s.txs|
    ensures var (t, removed) := AddEach(Truncated(s, index), [tx] + s.txs[index + 1..], env);
      && Chained(t) && t.account == s.account
      && multiset(s.txs) + multiset{tx} == multiset(t.txs) + multiset([s.txs[index]] + removed)
  {
    hide Chained, AddEach, Truncated;
    TruncatedIs(s, index);
    var base, offered := Truncated(s, index), [tx] + s.txs[index + 1..];
    AddEachKeeps(base, offered, env);
    AddEachConserves(base, offered, env);
    FallbackCounts(s.txs, index, tx, AddEach(base, offered, env).0.txs, AddEach(base, offered, env).1);
  }

  /** Replacing keeps the chain and conserves transactions, through the revert-and-re-add fallback too. */
  lemma ReplaceKeeps(s: Sender, tx: Tx, env: Env)
    requires Chained(s)
    ensures match Replace(s, tx, env)
      case Failed => true
      case Done(t, removed) =>
        && Chained(t) && t.account == s.account
        && (removed == [] ==> t == s)
        && (removed != [] ==> multiset(s.txs) + multiset{tx} == multiset(t.txs) + multiset(removed))
        && (removed != [] ==> removed[0] in s.txs && removed[0].nonce == tx.nonce && removed[0].gasPrice < tx.gasPrice)
  {
    hide Cost, TotalCost, FirstAtLeast, AddEach, Truncated, Chained;
    var index := FirstAtLeast(s.txs, tx.nonce);
    if index < |s.txs| && s.txs[index].nonce == tx.nonce && tx.gasPrice > s.txs[index].gasPrice {
      if s.balance + Cost(s.txs[index]) >= Cost(tx) {
        InPlaceKeeps(s, tx, index);
        ReplacedCounts(s.txs, index, tx);
      } else {
        FallbackKeeps(s, tx, env, index);
      }
    }
  }

  lemma IndexByNonce(s: Sender, nonce: int)
    requires Chained(s) && 0 <= nonce - s.account.nonce < |s.txs|
    ensures FirstAtLeast(s.txs, nonce) == nonce - s.account.nonce
  {
    FirstAtLeastIs(s, nonce, |s.txs|);
    assert s.txs[..|s.txs|] == s.txs;
  }

  /** While the sender can still pay for the whole chain, a better paying transaction at a pooled nonce takes the place
      of the pooled one and every later transaction stays, unless a check rejects it and nothing changes at all. */
  lemma ReplaceInPlace(s: Sender, tx: Tx, env: Env, index: nat)
    requires Chained(s) && index == tx.nonce - s.account.nonce < |s.txs|
    requires tx.gasPrice > s.txs[index].gasPrice && Cost(tx) <= s.balance + Cost(s.txs[index])
    ensures Replace(s, tx, env) ==
      if tx.size <= env.maxTransactionBytes && (tx.network == 0 || tx.network == env.chainId) && env.preverify(tx)
      then Done(s.(balance := s.balance + Cost(s.txs[index]) - Cost(tx), txs := s.txs[index := tx]), [s.txs[index]])
      else Failed
  {
    hide Cost, AddEach, Truncated, TotalCost;
    IndexByNonce(s, tx.nonce);
  }

  lemma ReAddKeeps(s: Sender, account: Account, env: Env)
    ensures var (t, removed) := ReAdd(s, account, env);
      && Chained(t) && t.account == account
      && multiset(s.txs) == multiset(t.txs) + multiset(removed)
  {
    AddEachKeeps(Fresh(account), s.txs, env);
    AddEachConserves(Fresh(account), s.txs, env);
    assert multiset([] + s.txs) == multiset(s.txs);
  }

  /** Everything about a transaction that does not depend on what else is pooled lets it in. */
  predicate Passes(tx: Tx, env: Env) {
    tx.size <= env.maxTransactionBytes && (tx.network == 0 || tx.network == env.chainId) && env.preverify(tx)
  }

  lemma TotalCostOfNone()
    ensures TotalCost([]) == SumOfValues([]) == SumOfFees([]) == 0
  {
  }

  lemma FreshIsChained(account: Account)
    ensures Chained(Fresh(account))
  {
    TotalCostOfNone();
  }

  lemma {:induction false} MinedAreDropped(s: Sender, account: Account, k: nat, env: Env)
    requires Chained(s) && k <= |s.txs| && account.nonce >= s.account.nonce + k
    ensures AddEach(Fresh(account), s.txs[..k], env) == (Fresh(account), s.txs[..k])
    decreases k
  {
    if k == 0 {
    } else {
      MinedAreDropped(s, account, k - 1, env);
      assert s.txs[..k][..k - 1] == s.txs[..k - 1];
      assert s.txs[..k] == s.txs[..k - 1] + [s.txs[k - 1]];
    }
  }

  lemma PaidForSoFar(txs: seq<Tx>, k: nat)
    requires k <= |txs|
    ensures SumOfValues(txs[..k]) + SumOfFees(txs[..k]) <= SumOfValues(txs) + SumOfFees(txs)
  {
    assert txs == txs[..k] + txs[k..];
    TotalCostSplits(txs[..k], txs[k..]);
    NonNegativeCost(txs[k..]);
    TotalCostIs(txs);
    TotalCostIs(txs[..k]);
  }

  lemma NextIsAdmitted(s: Sender, account: Account, k: nat, end: nat, t: Sender, env: Env)
    requires Chained(s) && k < end <= |s.txs| && account.nonce == s.account.nonce + k
    requires SumOfValues(s.txs[k..]) + SumOfFees(s.txs[k..]) <= account.balance
    requires Passes(s.txs[end - 1], env)
    requires |s.txs| - k <= env.maxTransactionsPerSender || env.allowed(s.txs[end - 1].from)
    requires Chained(t) && t.account == account && t.txs == s.txs[k..end - 1]
    ensures Admits(t, s.txs[end - 1], env)
  {
    PaidForSoFar(s.txs[k..], end - k);
    assert s.txs[k..][..end - k] == s.txs[k..end] && s.txs[k..end][..end - 1 - k] == s.txs[k..end - 1];
  }

  lemma {:induction false} LaterAreKept(s: Sender, account: Account, k: nat, end: nat, env: Env)
    requires Chained(s) && k <= end <= |s.txs| && account.nonce == s.account.nonce + k
    requires SumOfValues(s.txs[k..]) + SumOfFees(s.txs[k..]) <= account.balance
    requires forall x :: x in s.txs ==> Passes(x, env)
    requires |s.txs| - k <= env.maxTransactionsPerSender || forall x :: x in s.txs ==> env.allowed(x.from)
    ensures var (t, removed) := AddEach(Fresh(account), s.txs[..end], env);
      && Chained(t) && t.account == account && t.txs == s.txs[k..end] && removed == s.txs[..k]
    decreases end
  {
    hide Chained, Admits, Passes, SumOfValues, SumOfFees, Cost;
    if end == k {
      MinedAreDropped(s, account, k, env);
      FreshIsChained(account);
      assert s.txs[k..end] == [];
    } else {
      LaterAreKept(s, account, k, end - 1, env);
      var x, t := s.txs[end - 1], AddEach(Fresh(account), s.txs[..end - 1], env).0;
      assert s.txs[..end][..end - 1] == s.txs[..end - 1];
      assert s.txs[k..end] == s.txs[k..end - 1] + [x];
      assert x in s.txs;
      NextIsAdmitted(s, account, k, end, t, env);
      AddKeeps(t, x, env);
    }
  }

  /** After a block that holds the first `k` pooled transactions of a sender, rebuilding on the new account drops
      exactly those, as long as the account still pays for the others; without a block it changes nothing. */
  lemma ReAddDropsMined(s: Sender, account: Account, k: nat, env: Env)
    requires Chained(s) && k <= |s.txs| && account.nonce == s.account.nonce + k
    requires SumOfValues(s.txs[k..]) + SumOfFees(s.txs[k..]) <= account.balance
    requires forall x :: x in s.txs ==> Passes(x, env)
    requires |s.txs| - k <= env.maxTransactionsPerSender || forall x :: x in s.txs ==> env.allowed(x.from)
    ensures ReAdd(s, account, env).0.txs == s.txs[k..] && ReAdd(s, account, env).1 == s.txs[..k]
    ensures account == s.account ==> ReAdd(s, account, env) == (s, [])
  {
    LaterAreKept(s, account, k, |s.txs|, env);
    assert s.txs[..|s.txs|] == s.txs && s.txs[k..|s.txs|] == s.txs[k..];
  }

  lemma RemoveKeeps(s: Sender, hash: nat)
    requires Chained(s)
    ensures var i := IndexOf(s.txs, hash);
      Chained(Truncated(s, i)) && multiset(s.txs) == multiset(Truncated(s, i).txs) + multiset(s.txs[i..])
  {
    var i := IndexOf(s.txs, hash);
    TruncatedIs(s, i);
    assert s.txs == s.txs[..i] + s.txs[i..];
  }

  lemma {:induction false} OthersAfterFirst(s: Sender, first: Tx, rest: seq<Tx>, env: Env)
    ensures Admits(s, first, env) ==> first in AddEach(s, [first] + rest, env).0.txs
    ensures !Admits(s, first, env) ==>
      first in AddEach(s, [first] + rest, env).1 &&
      forall x :: x in AddEach(s, [first] + rest, env).0.txs ==> x in s.txs || x in rest
    decreases |rest|
  {
    var all := [first] + rest;
    if rest == [] {
      assert all[..0] == [] && all[0] == first;
    } else {
      var front := rest[..|rest| - 1];
      OthersAfterFirst(s, first, front, env);
      assert all[..|all| - 1] == [first] + front;
    }
  }

  /** When the sender cannot pay for the new transaction on top of the later ones, it may be dropped although the
      replaced one is gone: it stays exactly if it is admitted on top of the transactions below it. */
  lemma FallbackKeepsIffAdmitted(s: Sender, tx: Tx, env: Env, index: nat)
    requires Chained(s) && tx !in s.txs && index == tx.nonce - s.account.nonce < |s.txs|
    requires tx.gasPrice > s.txs[index].gasPrice && Cost(tx) > s.balance + Cost(s.txs[index])
    ensures Replace(s, tx, env).Done? && Replace(s, tx, env).removed != []
    ensures tx in Replace(s, tx, env).sender.txs <==> Admits(Truncated(s, index), tx, env)
  {
    hide Cost, Admits, AddEach, Truncated, TotalCost;
    IndexByNonce(s, tx.nonce);
    TruncatedIs(s, index);
    OthersAfterFirst(Truncated(s, index), tx, s.txs[index + 1..], env);
    assert forall x :: x in s.txs[..index] || x in s.txs[index + 1..] ==> x in s.txs;
  }

  const POOR := Account(0, 100)
  const CHEAP := Tx(1, 5, 0, 1, 10, 0, 10, 0)
  const DEAR := Tx(2, 5, 0, 2, 100, 0, 10, 0)
  const OPEN := Env(1000, 0, 10, _ => false, _ => true)

  lemma TotalCostOfOne(tx: Tx)
    ensures TotalCost([tx]) == Cost(tx)
  {
    assert [tx][..0] == [];
  }

  /** A sender who can pay for the pooled transaction, but not for the better paying one, ends up with neither. */
  lemma ReplacementIsDropped()
    ensures Admits(Fresh(POOR), CHEAP, OPEN) && Chained(Add(Fresh(POOR), CHEAP))
    ensures var s := Add(Fresh(POOR), CHEAP);
      && Replace(s, DEAR, OPEN).Done?
      && Replace(s, DEAR, OPEN).sender.txs == [] && Replace(s, DEAR, OPEN).removed == [CHEAP, DEAR]
  {
    hide Chained;
    FreshIsChained(POOR);
    var s := Add(Fresh(POOR), CHEAP);
    AddKeeps(Fresh(POOR), CHEAP, OPEN);
    TotalCostOfOne(CHEAP);
    assert s.txs == [CHEAP] && s.txs[..0] == [] && s.txs[0..] == [CHEAP];
    IndexByNonce(s, 0);
    var base := Truncated(s, 0);
    assert base == Fresh(POOR) && !Admits(base, DEAR, OPEN);
    var offered := [DEAR] + s.txs[1..];
    assert offered == [DEAR] && offered[..0] == [];
    assert AddEach(base, offered, OPEN) == (base, [] + [DEAR]);
  }

  lemma {:induction false} ReversedAt(txs: seq<Tx>)
    ensures |Reversed(txs)| == |txs| && forall k :: 0 <= k < |txs| ==> Reversed(txs)[k] == txs[|txs| - 1 - k]
  {
    if txs == [] {
    } else {
      ReversedAt(txs[..|txs| - 1]);
    }
  }

  class SenderMempool {
    ghost var account: Account
    var nonce: int
    var balance: int
    var transactions: seq<Tx>

    ghost function View(): Sender reads this {
      Sender(account, nonce, balance, transactions)
    }

    constructor (account: Account)
      ensures View() == Fresh(account)
    {
      this.account, nonce, balance, transactions := account, account.nonce, account.balance, [];
    }

    method AddTransaction(tx: Tx, env: Env) returns (ok: bool)
      modifies this
      ensures ok == Admits(old(View()), tx, env)
      ensures View() == if ok then Add(old(View()), tx) else old(View())
      ensures ok <==>
        && (|old(transactions)| < env.maxTransactionsPerSender || env.allowed(tx.from))
        && tx.size <= env.maxTransactionBytes && (tx.network == 0 || tx.network == env.chainId)
        && tx.nonce == old(nonce) && tx.value + tx.gasPrice * tx.gasLimit <= old(balance) && env.preverify(tx)
      ensures ok ==>
        && transactions == old(transactions) + [tx] && nonce == old(nonce) + 1
        && balance == old(balance) - tx.value - tx.gasPrice * tx.gasLimit
      ensures tx.value > old(balance) ==> !ok
    {
      if |transactions| >= env.maxTransactionsPerSender {
        if !env.allowed(tx.from) {
          return false;
        }
      }
      if tx.size > env.maxTransactionBytes || (tx.network != 0 && tx.network != env.chainId) || nonce != tx.nonce ||
         balance - Cost(tx) < 0 || !env.preverify(tx) {
        return false;
      }
      nonce := nonce + 1;
      balance := balance - Cost(tx);
      transactions := transactions + [tx];
      ok := true;
    }

    /** Cuts the transactions from `index` off and reverts them, the latest first. */
    method RevertTo(index: nat) returns (reverted: seq<Tx>)
      requires index <= |transactions|
      modifies this
      ensures View() == Truncated(old(View()), index)
      ensures reverted == Reversed(old(transactions)[index..])
    {
      hide Cost, TotalCost;
      ghost var tail := transactions[index..];
      reverted := Reversed(transactions[index..]);
      transactions := transactions[..index];
      ReversedAt(tail);
      TotalCostOfNone();
      assert tail[|tail|..] == [];
      for k := 0 to |reverted|
        invariant nonce == old(nonce) - k
        invariant balance == old(balance) + TotalCost(tail[|tail| - k..])
        invariant transactions == old(transactions)[..index] && account == old(account)
      {
        nonce := nonce - 1;
        balance := balance + Cost(reverted[k]);
        assert tail[|tail| - k - 1..] == [reverted[k]] + tail[|tail| - k..];
        TotalCostSplits([reverted[k]], tail[|tail| - k..]);
        TotalCostOfOne(reverted[k]);
      }
      assert tail[0..] == tail;
    }

    /** Removes a transaction with every later one: their nonces would be out of order. */
    method RemoveTransaction(hash: nat) returns (removed: seq<Tx>)
      modifies this
      ensures var i := IndexOf(old(transactions), hash);
        View() == Truncated(old(View()), i) && removed == Reversed(old(transactions)[i..])
    {
      var i := IndexOf(transactions, hash);
      if i == |transactions| {
        return [];
      }
      removed := RevertTo(i);
    }

    method AddAll(txs: seq<Tx>, env: Env) returns (removed: seq<Tx>)
      modifies this
      ensures (View(), removed) == AddEach(old(View()), txs, env)
    {
      removed := [];
      for k := 0 to |txs|
        invariant (View(), removed) == AddEach(old(View()), txs[..k], env)
      {
        assert txs[..k + 1][..k] == txs[..k];
        var ok := AddTransaction(txs[k], env);
        if !ok {
          removed := removed + [txs[k]];
        }
      }
      assert txs[..|txs|] == txs;
    }

    method ReplaceTransaction(tx: Tx, env: Env) returns (ok: bool, removed: seq<Tx>)
      modifies this
      ensures match Replace(old(View()), tx, env)
        case Failed => !ok && View() == old(View())
        case Done(t, r) => ok && View() == t && removed == r
    {
      removed := [];
      var index := |transactions|;
      assert transactions[..index] == transactions;
      while index > 0 && transactions[index - 1].nonce >= tx.nonce
        invariant 0 <= index <= |transactions|
        invariant FirstAtLeast(transactions[..index], tx.nonce) == FirstAtLeast(transactions, tx.nonce)
      {
        assert transactions[..index][..index - 1] == transactions[..index - 1];
        index := index - 1;
      }
      if index == |transactions| {
        return true, [];
      }
      var same := transactions[index];
      if same.nonce != tx.nonce {
        return false, [];
      }
      if tx.gasPrice <= same.gasPrice {
        return true, [];
      }
      if balance + Cost(same) >= Cost(tx) {
        if tx.size > env.maxTransactionBytes || (tx.network != 0 && tx.network != env.chainId) || !env.preverify(tx) {
          return false, [];
        }
        balance := balance + Cost(same);
        balance := balance - Cost(tx);
        transactions := transactions[index := tx];
        return true, [same];
      }
      var tail := transactions[index + 1..];
      var reverted := RevertTo(index);
      removed := AddAll([tx] + tail, env);
      removed := [same] + removed;
      ok := true;
    }

    /** Reads the account again and rebuilds the chain on it. */
    method ReAddTransactions(account: Account, env: Env) returns (removed: seq<Tx>)
      modifies this
      ensures (View(), removed) == ReAdd(old(View()), account, env)
    {
      var txs := transactions;
      this.account, nonce, balance, transactions := account, account.nonce, account.balance, [];
      removed := AddAll(txs, env);
    }
  }
}
