/** Ordering the pool for the forger: `Query` merges the senders' queues greedily by gas price, `Selector` cuts the
    merged list into batches, and `TransactionIterable` drains the batches. */
module PriorityQuery {
  import opened SenderPool
  import opened PoolService

  datatype Order = Highest | Lowest

  /** What a priority sort puts the smallest of first. */
  function Key(order: Order, x: Tx): int {
    match order
    case Highest => -(x.gasPrice as int)
    case Lowest => x.gasPrice
  }

  /** The part of a merged list that belongs to one sender, in order. */
  function OfSender(txs: seq<Tx>, a: Address): seq<Tx> {
    if txs == [] then []
    else
      var front, last := txs[..|txs| - 1], txs[|txs| - 1];
      if last.from == a then OfSender(front, a) + [last] else OfSender(front, a)
  }

  lemma OfSenderAppend(txs: seq<Tx>, x: Tx, a: Address)
    ensures OfSender(txs + [x], a) == if x.from == a then OfSender(txs, a) + [x] else OfSender(txs, a)
  {
    assert (txs + [x])[..|txs|] == txs;
  }

  /** At position `k` no sender's next transaction has a smaller key than the one picked. */
  ghost predicate BestAt(queues: map<Address, seq<Tx>>, txs: seq<Tx>, k: nat, order: Order)
    requires k < |txs|
  {
    forall a :: a in queues && |OfSender(txs[..k], a)| < |queues[a]| ==>
      Key(order, txs[k]) <= Key(order, queues[a][|OfSender(txs[..k], a)|])
  }

  /** A greedy interleaving: every sender's queue appears whole and in order, nothing else appears, and every pick is
      the best of the remaining heads. */
  ghost predicate GreedyMerge(queues: map<Address, seq<Tx>>, txs: seq<Tx>, order: Order) {
    && (forall a :: a in queues ==> OfSender(txs, a) == queues[a])
    && (forall x :: x in txs ==> x.from in queues)
    && (forall k :: 0 <= k < |txs| ==> BestAt(queues, txs, k, order))
  }

  predicate OwnTransactions(queues: map<Address, seq<Tx>>) {
    forall a | a in queues :: forall x | x in queues[a] :: x.from == a
  }

  // The sorted queue of heads

  predicate Ordered(s: seq<Tx>, order: Order) {
    forall i, j :: 0 <= i < j < |s| ==> Key(order, s[i]) <= Key(order, s[j])
  }

  function Insert(x: Tx, s: seq<Tx>, order: Order): seq<Tx> {
    if s == [] || Key(order, x) <= Key(order, s[0]) then [x] + s else [s[0]] + Insert(x, s[1..], order)
  }

  /** A stable sort by key. */
  function Sort(s: seq<Tx>, order: Order): seq<Tx> {
    if s == [] then [] else Insert(s[0], Sort(s[1..], order), order)
  }

  lemma {:induction false} InsertPermutes(x: Tx, s: seq<Tx>, order: Order)
    ensures multiset(Insert(x, s, order)) == multiset{x} + multiset(s)
  {
    hide Key;
    if s == [] || Key(order, x) <= Key(order, s[0]) {
    } else {
      InsertPermutes(x, s[1..], order);
      assert s == [s[0]] + s[1..];
    }
  }

  lemma {:induction false} InsertOrders(x: Tx, s: seq<Tx>, order: Order)
    requires Ordered(s, order)
    ensures Ordered(Insert(x, s, order), order)
  {
    hide Key;
    if s == [] || Key(order, x) <= Key(order, s[0]) {
    } else {
      var rest := Insert(x, s[1..], order);
      InsertOrders(x, s[1..], order);
      InsertPermutes(x, s[1..], order);
      forall i | 0 <= i < |rest| ensures Key(order, s[0]) <= Key(order, rest[i]) {
        assert rest[i] in multiset(rest);
        assert rest[i] == x || rest[i] in s[1..];
      }
    }
  }

  lemma {:induction false} SortSorts(s: seq<Tx>, order: Order)
    ensures Ordered(Sort(s, order), order) && multiset(Sort(s, order)) == multiset(s)
  {
    if s == [] {
    } else {
      SortSorts(s[1..], order);
      InsertOrders(s[0], Sort(s[1..], order), order);
      InsertPermutes(s[0], Sort(s[1..], order), order);
      assert s == [s[0]] + s[1..];
    }
  }

  /** The transactions with one key, in order. */
  function WithKey(s: seq<Tx>, order: Order, key: int): seq<Tx> {
    if s == [] then []
    else if Key(order, s[0]) == key then [s[0]] + WithKey(s[1..], order, key)
    else WithKey(s[1..], order, key)
  }

  lemma {:induction false} InsertIsStable(x: Tx, s: seq<Tx>, order: Order, key: int)
    requires Ordered(s, order)
    ensures WithKey(Insert(x, s, order), order, key) ==
      if Key(order, x) == key then [x] + WithKey(s, order, key) else WithKey(s, order, key)
  {
    if s == [] || Key(order, x) <= Key(order, s[0]) {
      assert ([x] + s)[1..] == s;
    } else {
      InsertIsStable(x, s[1..], order, key);
      var rest := Insert(x, s[1..], order);
      assert ([s[0]] + rest)[1..] == rest;
    }
  }

  /** Transactions of the same price keep their order. */
  lemma {:induction false} SortIsStable(s: seq<Tx>, order: Order, key: int)
    ensures WithKey(Sort(s, order), order, key) == WithKey(s, order, key)
  {
    if s == [] {
    } else {
      SortIsStable(s[1..], order, key);
      SortSorts(s[1..], order);
      InsertIsStable(s[0], Sort(s[1..], order), order, key);
    }
  }

  ghost predicate OnePerSender(heads: seq<Tx>) {
    forall i, j :: 0 <= i < j < |heads| ==> heads[i].from != heads[j].from
  }

  lemma {:induction false} CountFrom(heads: seq<Tx>, x: Tx)
    requires OnePerSender(heads)
    ensures multiset(heads)[x] <= 1
    ensures forall y :: y in heads && x in heads && y.from == x.from ==> y == x
  {
    if heads == [] {
    } else {
      var front, last := heads[..|heads| - 1], heads[|heads| - 1];
      CountFrom(front, x);
      assert heads == front + [last];
      if x == last {
        assert x !in front;
      }
    }
  }

  lemma SameElements(s: seq<Tx>, t: seq<Tx>)
    requires multiset(s) == multiset(t)
    ensures forall x :: x in s <==> x in t
  {
    forall x ensures x in s <==> x in t {
      assert x in multiset(s) <==> x in multiset(t);
    }
  }

  lemma TwiceCounts(s: seq<Tx>, i: nat, j: nat)
    requires i < j < |s| && s[i] == s[j]
    ensures multiset(s)[s[i]] >= 2
  {
    assert s == s[..i] + [s[i]] + s[i + 1..j] + [s[j]] + s[j + 1..];
  }

  lemma PermutationKeepsSenders(s: seq<Tx>, heads: seq<Tx>)
    requires OnePerSender(heads) && multiset(s) == multiset(heads)
    ensures OnePerSender(s)
  {
    SameElements(s, heads);
    forall i, j | 0 <= i < j < |s| ensures s[i].from != s[j].from {
      CountFrom(heads, s[i]);
      assert s[i] in heads && s[j] in heads;
      if s[i] == s[j] {
        TwiceCounts(s, i, j);
      }
    }
  }

  /** Sorting only permutes, so one head per sender it stays. */
  lemma SortKeepsSenders(heads: seq<Tx>, order: Order)
    requires OnePerSender(heads)
    ensures OnePerSender(Sort(heads, order)) && Ordered(Sort(heads, order), order)
    ensures forall x :: x in Sort(heads, order) <==> x in heads
  {
    hide Sort, Ordered;
    SortSorts(heads, order);
    SameElements(Sort(heads, order), heads);
    PermutationKeepsSenders(Sort(heads, order), heads);
  }

  /** The queue holds the head of every sender that still has transactions, and nothing else. */
  ghost predicate HoldsHeads(queues: map<Address, seq<Tx>>, heads: seq<Tx>) {
    && OnePerSender(heads)
    && (forall x :: x in heads ==> x.from in queues && queues[x.from] != [] && queues[x.from][0] == x)
    && (forall a :: a in queues && queues[a] != [] ==> queues[a][0] in heads)
  }

  /** What the loop of the merge keeps. */
  ghost predicate Merging(queues: map<Address, seq<Tx>>, left: map<Address, seq<Tx>>, heads: seq<Tx>,
                          selected: seq<Tx>, order: Order) {
    && left.Keys == queues.Keys && OwnTransactions(left)
    && HoldsHeads(left, heads) && Ordered(heads, order)
    && (forall a :: a in queues ==> OfSender(selected, a) + left[a] == queues[a])
    && (forall x :: x in selected ==> x.from in queues)
    && (forall k :: 0 <= k < |selected| ==> BestAt(queues, selected, k, order))
  }

  // First come, first served

  /** How many picks were made up to the last one of a sender; its next transaction waits since then. */
  function Since(txs: seq<Tx>, a: Address): (n: nat)
    ensures n <= |txs|
  {
    if txs == [] then 0 else if txs[|txs| - 1].from == a then |txs| else Since(txs[..|txs| - 1], a)
  }

  /** At position `k` no sender's next transaction has the same key and waits for longer than the one picked. */
  ghost predicate FirstComeAt(queues: map<Address, seq<Tx>>, txs: seq<Tx>, k: nat, order: Order)
    requires k < |txs|
  {
    forall a :: a in queues && |OfSender(txs[..k], a)| < |queues[a]| &&
                Key(order, queues[a][|OfSender(txs[..k], a)|]) == Key(order, txs[k]) ==>
      Since(txs[..k], txs[k].from) <= Since(txs[..k], a)
  }

  ghost predicate FirstCome(queues: map<Address, seq<Tx>>, txs: seq<Tx>, order: Order) {
    forall k :: 0 <= k < |txs| ==> FirstComeAt(queues, txs, k, order)
  }

  /** Of heads with the same key, the one that waits for longer comes first. */
  ghost predicate Queued(heads: seq<Tx>, selected: seq<Tx>, order: Order) {
    forall i, j :: 0 <= i < j < |heads| && Key(order, heads[i]) == Key(order, heads[j]) ==>
      Since(selected, heads[i].from) <= Since(selected, heads[j].from)
  }

  /** Everything with the same key waits for no longer than `x`. */
  ghost predicate WaitsLongest(x: Tx, s: seq<Tx>, selected: seq<Tx>, order: Order) {
    forall y :: y in s && Key(order, x) == Key(order, y) ==> Since(selected, x.from) <= Since(selected, y.from)
  }

  lemma ConsQueued(x: Tx, s: seq<Tx>, selected: seq<Tx>, order: Order)
    ensures Queued([x] + s, selected, order) <==> Queued(s, selected, order) && WaitsLongest(x, s, selected, order)
  {
    hide Key, Since;
    var all := [x] + s;
    assert forall i :: 0 <= i < |s| ==> s[i] == all[i + 1];
    if Queued(all, selected, order) {
      forall y | y in s && Key(order, x) == Key(order, y) ensures Since(selected, x.from) <= Since(selected, y.from) {
        var i :| 0 <= i < |s| && s[i] == y;
        assert all[0] == x && all[i + 1] == y;
      }
      forall i, j | 0 <= i < j < |s| && Key(order, s[i]) == Key(order, s[j])
        ensures Since(selected, s[i].from) <= Since(selected, s[j].from)
      {
        assert s[i] == all[i + 1] && s[j] == all[j + 1];
      }
    }
  }

  lemma {:induction false} InsertKeepsQueued(x: Tx, s: seq<Tx>, selected: seq<Tx>, order: Order)
    requires Queued(s, selected, order) && WaitsLongest(x, s, selected, order)
    ensures Queued(Insert(x, s, order), selected, order)
    decreases |s|
  {
    hide Key, Since, Queued;
    if s == [] || Key(order, x) <= Key(order, s[0]) {
      ConsQueued(x, s, selected, order);
    } else {
      var tail := s[1..];
      assert s == [s[0]] + tail;
      ConsQueued(s[0], tail, selected, order);
      InsertKeepsQueued(x, tail, selected, order);
      InsertPermutes(x, tail, order);
      SameElements(Insert(x, tail, order), [x] + tail);
      ConsQueued(s[0], Insert(x, tail, order), selected, order);
    }
  }

  lemma {:induction false} SortKeepsQueued(s: seq<Tx>, selected: seq<Tx>, order: Order)
    requires Queued(s, selected, order)
    ensures Queued(Sort(s, order), selected, order)
    decreases |s|
  {
    hide Key, Since, Queued;
    if s == [] {
    } else {
      assert s == [s[0]] + s[1..];
      ConsQueued(s[0], s[1..], selected, order);
      SortKeepsQueued(s[1..], selected, order);
      SortSorts(s[1..], order);
      SameElements(Sort(s[1..], order), s[1..]);
      InsertKeepsQueued(s[0], Sort(s[1..], order), selected, order);
    }
  }

  lemma QueuedAtStart(heads: seq<Tx>, order: Order)
    ensures Queued(heads, [], order)
  {
  }

  lemma SinceAppend(txs: seq<Tx>, x: Tx, a: Address)
    ensures Since(txs + [x], a) == if x.from == a then |txs| + 1 else Since(txs, a)
  {
    assert (txs + [x])[..|txs|] == txs;
  }

  function NextQueue(heads: seq<Tx>, rest: seq<Tx>): seq<Tx>
    requires heads != []
  {
    if |rest| > 0 then heads[1..] + [rest[0]] else heads[1..]
  }

  /** The pick leaves the others waiting as they were, and its sender's next one waits from now on. */
  lemma NextQueued(heads: seq<Tx>, rest: seq<Tx>, selected: seq<Tx>, order: Order)
    requires heads != [] && OnePerSender(heads) && Queued(heads, selected, order)
    requires rest != [] ==> rest[0].from == heads[0].from
    ensures Queued(NextQueue(heads, rest), selected + [heads[0]], order)
  {
    hide Key, Since;
    var next := NextQueue(heads, rest);
    forall i, j | 0 <= i < j < |next| && Key(order, next[i]) == Key(order, next[j])
      ensures Since(selected + [heads[0]], next[i].from) <= Since(selected + [heads[0]], next[j].from)
    {
      SinceAppend(selected, heads[0], next[i].from);
      SinceAppend(selected, heads[0], next[j].from);
      assert next[i] == heads[i + 1];
      if j < |heads| - 1 {
        assert next[j] == heads[j + 1];
      }
    }
  }

  lemma HeadWaits(left: map<Address, seq<Tx>>, heads: seq<Tx>, selected: seq<Tx>, order: Order, a: Address)
    requires OwnTransactions(left) && HoldsHeads(left, heads) && Queued(heads, selected, order)
    requires heads != [] && a in left && left[a] != [] && Key(order, left[a][0]) == Key(order, heads[0])
    ensures Since(selected, heads[0].from) <= Since(selected, a)
  {
    hide Key, Since, OnePerSender;
    assert left[a][0].from == a;
    var i :| 0 <= i < |heads| && heads[i] == left[a][0];
  }

  lemma PickIsFirst(queues: map<Address, seq<Tx>>, left: map<Address, seq<Tx>>, heads: seq<Tx>, selected: seq<Tx>,
                    order: Order)
    requires left.Keys == queues.Keys && OwnTransactions(left) && heads != [] && HoldsHeads(left, heads)
    requires Queued(heads, selected, order)
    requires forall a :: a in queues ==> OfSender(selected, a) + left[a] == queues[a]
    ensures FirstComeAt(queues, selected + [heads[0]], |selected|, order)
  {
    hide Key, Since, HoldsHeads, OwnTransactions, OfSender, Queued;
    assert (selected + [heads[0]])[..|selected|] == selected;
    forall a | a in queues && |OfSender(selected, a)| < |queues[a]| &&
               Key(order, queues[a][|OfSender(selected, a)|]) == Key(order, heads[0])
      ensures Since(selected, heads[0].from) <= Since(selected, a)
    {
      assert queues[a] == OfSender(selected, a) + left[a];
      assert left[a] != [] && left[a][0] == queues[a][|OfSender(selected, a)|];
      HeadWaits(left, heads, selected, order, a);
    }
  }

  lemma AppendKeepsFirst(queues: map<Address, seq<Tx>>, selected: seq<Tx>, tx: Tx, k: nat, order: Order)
    requires k < |selected| && FirstComeAt(queues, selected, k, order)
    ensures FirstComeAt(queues, selected + [tx], k, order)
  {
    assert (selected + [tx])[..k] == selected[..k];
  }

  lemma FirstComeContinues(queues: map<Address, seq<Tx>>, left: map<Address, seq<Tx>>, heads: seq<Tx>,
                           selected: seq<Tx>, order: Order)
    requires Merging(queues, left, heads, selected, order) && heads != []
    requires Queued(heads, selected, order) && FirstCome(queues, selected, order)
    ensures heads[0].from in left && left[heads[0].from] != []
    ensures var rest := left[heads[0].from][1..];
      Queued(Sort(NextQueue(heads, rest), order), selected + [heads[0]], order)
    ensures FirstCome(queues, selected + [heads[0]], order)
  {
    hide Queued, FirstComeAt, Sort, Ordered, OfSender, BestAt;
    var tx := heads[0];
    assert tx in heads;
    var rest := left[tx.from][1..];
    assert rest != [] ==> rest[0] in left[tx.from];
    PickIsFirst(queues, left, heads, selected, order);
    NextQueued(heads, rest, selected, order);
    SortKeepsQueued(NextQueue(heads, rest), selected + [tx], order);
    forall k | 0 <= k < |selected| ensures FirstComeAt(queues, selected + [tx], k, order) {
      AppendKeepsFirst(queues, selected, tx, k, order);
    }
  }

  method FirstOfEach(queues: map<Address, seq<Tx>>) returns (heads: seq<Tx>)
    requires OwnTransactions(queues)
    ensures HoldsHeads(queues, heads)
  {
    heads := [];
    var todo := queues.Keys;
    while todo != {}
      invariant todo <= queues.Keys && OnePerSender(heads)
      invariant forall x :: x in heads ==>
        x.from in queues && x.from !in todo && queues[x.from] != [] && queues[x.from][0] == x
      invariant forall a :: a in queues && a !in todo && queues[a] != [] ==> queues[a][0] in heads
      decreases todo
    {
      var a :| a in todo;
      if queues[a] != [] {
        assert queues[a][0].from == a;
        heads := heads + [queues[a][0]];
      }
      todo := todo - {a};
    }
  }

  // The merge

  ghost function Remaining(queues: map<Address, seq<Tx>>): nat {
    if queues == map[] then 0
    else
      var a :| a in queues;
      |queues[a]| + Remaining(queues - {a})
  }

  lemma SortedHeads(left: map<Address, seq<Tx>>, heads: seq<Tx>, order: Order)
    requires HoldsHeads(left, heads)
    ensures HoldsHeads(left, Sort(heads, order)) && Ordered(Sort(heads, order), order)
  {
    hide Sort, Ordered;
    SortKeepsSenders(heads, order);
  }

  lemma MergeStarts(queues: map<Address, seq<Tx>>, heads: seq<Tx>, order: Order)
    requires OwnTransactions(queues) && HoldsHeads(queues, heads)
    ensures Merging(queues, queues, Sort(heads, order), [], order)
  {
    hide Sort, Ordered, HoldsHeads;
    SortedHeads(queues, heads, order);
  }

  /** The total length does not depend on the order the senders are counted in. */
  lemma {:induction false} RemainingWithout(queues: map<Address, seq<Tx>>, a: Address)
    requires a in queues
    ensures Remaining(queues) == |queues[a]| + Remaining(queues - {a})
    decreases |queues|
  {
    var b :| b in queues && Remaining(queues) == |queues[b]| + Remaining(queues - {b});
    if b == a {
    } else {
      RemainingWithout(queues - {b}, a);
      RemainingWithout(queues - {a}, b);
      assert queues - {b} - {a} == queues - {a} - {b};
      assert (queues - {b}).Keys == queues.Keys - {b} && (queues - {a}).Keys == queues.Keys - {a};
    }
  }

  lemma RemainingDrops(left: map<Address, seq<Tx>>, a: Address)
    requires a in left && left[a] != []
    ensures Remaining(left[a := left[a][1..]]) < Remaining(left)
  {
    RemainingWithout(left, a);
    RemainingWithout(left[a := left[a][1..]], a);
    assert left[a := left[a][1..]] - {a} == left - {a};
  }

  lemma PickIsBest(queues: map<Address, seq<Tx>>, left: map<Address, seq<Tx>>, heads: seq<Tx>, selected: seq<Tx>,
                   order: Order)
    requires left.Keys == queues.Keys && heads != [] && HoldsHeads(left, heads) && Ordered(heads, order)
    requires forall a :: a in queues ==> OfSender(selected, a) + left[a] == queues[a]
    ensures BestAt(queues, selected + [heads[0]], |selected|, order)
  {
    assert (selected + [heads[0]])[..|selected|] == selected;
    forall a | a in queues && |OfSender(selected, a)| < |queues[a]|
      ensures Key(order, heads[0]) <= Key(order, queues[a][|OfSender(selected, a)|])
    {
      assert queues[a] == OfSender(selected, a) + left[a];
      assert left[a] != [] && queues[a][|OfSender(selected, a)|] == left[a][0];
      assert left[a][0] in heads;
    }
  }

  lemma AppendKeepsBest(queues: map<Address, seq<Tx>>, selected: seq<Tx>, tx: Tx, order: Order)
    requires forall k :: 0 <= k < |selected| ==> BestAt(queues, selected, k, order)
    ensures forall k :: 0 <= k < |selected| ==> BestAt(queues, selected + [tx], k, order)
  {
    forall k | 0 <= k < |selected| ensures BestAt(queues, selected + [tx], k, order) {
      assert BestAt(queues, selected, k, order);
      assert (selected + [tx])[..k] == selected[..k];
    }
  }

  lemma MovedOver<T>(taken: seq<T>, left: seq<T>, all: seq<T>)
    requires taken + left == all && left != []
    ensures taken + [left[0]] + left[1..] == all
  {
    assert left == [left[0]] + left[1..];
  }

  lemma AppendKeepsParts(queues: map<Address, seq<Tx>>, left: map<Address, seq<Tx>>, selected: seq<Tx>, tx: Tx)
    requires left.Keys == queues.Keys && tx.from in left && left[tx.from] != [] && left[tx.from][0] == tx
    requires forall a :: a in queues ==> OfSender(selected, a) + left[a] == queues[a]
    ensures forall a :: a in queues ==>
      OfSender(selected + [tx], a) + left[tx.from := left[tx.from][1..]][a] == queues[a]
  {
    hide OfSender;
    forall a | a in queues
      ensures OfSender(selected + [tx], a) + left[tx.from := left[tx.from][1..]][a] == queues[a]
    {
      OfSenderAppend(selected, tx, a);
      if a == tx.from {
        MovedOver(OfSender(selected, a), left[a], queues[a]);
      }
    }
  }

  lemma OthersDiffer(heads: seq<Tx>)
    requires heads != [] && OnePerSender(heads)
    ensures OnePerSender(heads[1..]) && forall x :: x in heads[1..] ==> x in heads && x.from != heads[0].from
    ensures forall x :: x in heads && x.from != heads[0].from ==> x in heads[1..]
  {
    assert heads == [heads[0]] + heads[1..];
    forall i | 0 <= i < |heads[1..]| ensures heads[1..][i].from != heads[0].from {
      assert heads[1..][i] == heads[i + 1];
    }
  }

  /** The other senders' heads stay in the queue when one sender's queue moves on. */
  lemma OtherHeads(left: map<Address, seq<Tx>>, heads: seq<Tx>, rest: seq<Tx>)
    requires OwnTransactions(left) && heads != [] && HoldsHeads(left, heads)
    ensures var after := left[heads[0].from := rest];
      && (forall y :: y in heads[1..] ==> y.from in after && after[y.from] != [] && after[y.from][0] == y)
      && (forall b :: b in after && b != heads[0].from && after[b] != [] ==> after[b][0] in heads[1..])
  {
    hide OnePerSender;
    OthersDiffer(heads);
    forall b | b in left && b != heads[0].from && left[b] != [] ensures left[b][0] in heads[1..] {
      assert left[b][0].from == b;
    }
  }

  lemma Appended(after: map<Address, seq<Tx>>, heads: seq<Tx>, x: Tx)
    requires OnePerSender(heads) && forall y :: y in heads ==> y.from != x.from
    requires forall y :: y in heads ==> y.from in after && after[y.from] != [] && after[y.from][0] == y
    requires forall a :: a in after && a != x.from && after[a] != [] ==> after[a][0] in heads
    requires x.from in after && after[x.from] != [] && after[x.from][0] == x
    ensures HoldsHeads(after, heads + [x])
  {
  }

  lemma NextHeads(left: map<Address, seq<Tx>>, heads: seq<Tx>)
    requires OwnTransactions(left) && heads != [] && HoldsHeads(left, heads)
    ensures var rest := left[heads[0].from][1..];
      HoldsHeads(left[heads[0].from := rest], NextQueue(heads, rest))
  {
    var a := heads[0].from;
    var rest := left[a][1..];
    OthersDiffer(heads);
    OtherHeads(left, heads, rest);
    if rest != [] {
      assert rest[0] == left[a][1] && left[a][1].from == a;
      hide OnePerSender, HoldsHeads, OwnTransactions;
      Appended(left[a := rest], heads[1..], rest[0]);
    }
  }

  lemma FirstHead(left: map<Address, seq<Tx>>, heads: seq<Tx>)
    requires HoldsHeads(left, heads) && heads != []
    ensures heads[0].from in left && left[heads[0].from] != [] && left[heads[0].from][0] == heads[0]
  {
    assert heads[0] in heads;
  }

  lemma OwnTail(left: map<Address, seq<Tx>>, a: Address)
    requires OwnTransactions(left) && a in left && left[a] != []
    ensures OwnTransactions(left[a := left[a][1..]])
  {
  }

  lemma MergeContinues(queues: map<Address, seq<Tx>>, left: map<Address, seq<Tx>>, heads: seq<Tx>, selected: seq<Tx>,
                       order: Order)
    requires heads != [] && Merging(queues, left, heads, selected, order)
    ensures heads[0].from in left && left[heads[0].from] != []
    ensures var rest := left[heads[0].from][1..];
      var after := left[heads[0].from := rest];
      && Merging(queues, after, Sort(NextQueue(heads, rest), order), selected + [heads[0]], order)
      && Remaining(after) < Remaining(left)
  {
    hide Sort, Ordered, Remaining, BestAt, OfSender, HoldsHeads, OwnTransactions, NextQueue;
    var tx := heads[0];
    FirstHead(left, heads);
    var rest := left[tx.from][1..];
    PickIsBest(queues, left, heads, selected, order);
    AppendKeepsBest(queues, selected, tx, order);
    AppendKeepsParts(queues, left, selected, tx);
    RemainingDrops(left, tx.from);
    NextHeads(left, heads);
    OwnTail(left, tx.from);
    SortedHeads(left[tx.from := rest], NextQueue(heads, rest), order);
  }

  lemma MergeEnds(queues: map<Address, seq<Tx>>, left: map<Address, seq<Tx>>, selected: seq<Tx>, order: Order)
    requires Merging(queues, left, [], selected, order)
    ensures GreedyMerge(queues, selected, order)
  {
    hide BestAt, OfSender;
    forall a | a in queues ensures OfSender(selected, a) == queues[a] {
      assert left[a] == [];
      assert OfSender(selected, a) + left[a] == queues[a];
    }
  }

  method GetTransactions(queues: map<Address, seq<Tx>>, order: Order) returns (selected: seq<Tx>)
    requires OwnTransactions(queues)
    ensures GreedyMerge(queues, selected, order) && FirstCome(queues, selected, order)
  {
    hide Merging, HoldsHeads, Ordered, OwnTransactions, GreedyMerge, Queued, FirstComeAt;
    var left: map<Address, seq<Tx>> := queues;
    var priorityQueue := FirstOfEach(queues);
    MergeStarts(queues, priorityQueue, order);
    QueuedAtStart(Sort(priorityQueue, order), order);
    priorityQueue := Sort(priorityQueue, order);
    selected := [];
    while |priorityQueue| > 0
      invariant Merging(queues, left, priorityQueue, selected, order)
      invariant Queued(priorityQueue, selected, order) && FirstCome(queues, selected, order)
      decreases Remaining(left)
    {
      var tx := priorityQueue[0];
      MergeContinues(queues, left, priorityQueue, selected, order);
      FirstComeContinues(queues, left, priorityQueue, selected, order);
      selected := selected + [tx];
      left := left[tx.from := left[tx.from][1..]];
      priorityQueue := priorityQueue[1..];
      if |left[tx.from]| > 0 {
        priorityQueue := priorityQueue + [left[tx.from][0]];
      }
      priorityQueue := Sort(priorityQueue, order);
    }
    MergeEnds(queues, left, selected, order);
  }

  // What the two queries return

  function Earliest(senders: Senders): map<Address, seq<Tx>> {
    map a | a in senders :: senders[a].txs
  }

  function Latest(senders: Senders): map<Address, seq<Tx>> {
    map a | a in senders :: Reversed(senders[a].txs)
  }

  lemma OwnersKept(senders: Senders)
    requires PoolOk(senders)
    ensures OwnTransactions(Earliest(senders)) && OwnTransactions(Latest(senders))
  {
    forall a, x | a in senders && x in Reversed(senders[a].txs) ensures x.from == a {
      ReversedSet(senders[a].txs);
      assert x in TxSet(Reversed(senders[a].txs));
      assert SenderOk(a, senders[a]);
    }
    forall a, x | a in senders && x in senders[a].txs ensures x.from == a {
      assert SenderOk(a, senders[a]);
    }
  }

  /** How many transactions of a sender are among the first `k`. */
  function Taken(txs: seq<Tx>, k: nat, a: Address): nat
    requires k <= |txs|
  {
    |OfSender(txs[..k], a)|
  }

  /** Every transaction pays at least as much as the next one of any sender with transactions left. */
  ghost predicate HighestFirst(senders: Senders, txs: seq<Tx>) {
    forall k, a :: 0 <= k < |txs| && a in senders && Taken(txs, k, a) < |senders[a].txs| ==>
      txs[k].gasPrice >= senders[a].txs[Taken(txs, k, a)].gasPrice
  }

  /** Every transaction pays at most as much as the latest one left of any sender. */
  ghost predicate LowestFirst(senders: Senders, txs: seq<Tx>) {
    forall k, a :: 0 <= k < |txs| && a in senders && Taken(txs, k, a) < |senders[a].txs| ==>
      txs[k].gasPrice <= senders[a].txs[|senders[a].txs| - 1 - Taken(txs, k, a)].gasPrice
  }

  lemma HighestPaysMost(senders: Senders, txs: seq<Tx>)
    requires GreedyMerge(Earliest(senders), txs, Highest)
    ensures HighestFirst(senders, txs)
  {
    forall k, a | 0 <= k < |txs| && a in senders && Taken(txs, k, a) < |senders[a].txs|
      ensures txs[k].gasPrice >= senders[a].txs[Taken(txs, k, a)].gasPrice
    {
      assert BestAt(Earliest(senders), txs, k, Highest);
    }
  }

  lemma LowestPaysLeast(senders: Senders, txs: seq<Tx>)
    requires GreedyMerge(Latest(senders), txs, Lowest)
    ensures LowestFirst(senders, txs)
  {
    forall k, a | 0 <= k < |txs| && a in senders && Taken(txs, k, a) < |senders[a].txs|
      ensures txs[k].gasPrice <= senders[a].txs[|senders[a].txs| - 1 - Taken(txs, k, a)].gasPrice
    {
      assert BestAt(Latest(senders), txs, k, Lowest);
      ReversedAt(senders[a].txs);
    }
  }

  lemma HighestFirstPrefix(senders: Senders, txs: seq<Tx>, n: nat)
    requires HighestFirst(senders, txs) && n <= |txs|
    ensures HighestFirst(senders, txs[..n])
  {
    hide OfSender;
    forall k, a | 0 <= k < n && a in senders && Taken(txs[..n], k, a) < |senders[a].txs|
      ensures txs[..n][k].gasPrice >= senders[a].txs[Taken(txs[..n], k, a)].gasPrice
    {
      assert txs[..n][..k] == txs[..k] && Taken(txs[..n], k, a) == Taken(txs, k, a);
    }
  }

  method GetFromHighestPriority(senders: Senders) returns (selected: seq<Tx>)
    requires PoolOk(senders)
    ensures GreedyMerge(Earliest(senders), selected, Highest) && FirstCome(Earliest(senders), selected, Highest)
    ensures HighestFirst(senders, selected)
  {
    OwnersKept(senders);
    selected := GetTransactions(Earliest(senders), Highest);
    HighestPaysMost(senders, selected);
  }

  lemma {:induction false} OfSenderPrefix(txs: seq<Tx>, k: nat, a: Address)
    requires k <= |txs|
    ensures OfSender(txs[..k], a) <= OfSender(txs, a)
  {
    if k < |txs| {
      var front := txs[..|txs| - 1];
      OfSenderPrefix(front, k, a);
      assert front[..k] == txs[..k];
    } else {
      assert txs[..k] == txs;
    }
  }

  lemma FirstOfSender(txs: seq<Tx>)
    requires txs != []
    ensures OfSender(txs, txs[0].from) != [] && OfSender(txs, txs[0].from)[0] == txs[0]
  {
    OfSenderPrefix(txs, 1, txs[0].from);
    assert txs[..1] == [] + [txs[0]];
    OfSenderAppend([], txs[0], txs[0].from);
  }

  /** The transaction the pool evicts when it is full is the first one of the lowest priority query. */
  lemma FirstIsLowest(senders: Senders, selected: seq<Tx>)
    requires PoolOk(senders) && GreedyMerge(Latest(senders), selected, Lowest)
    ensures selected != [] ==> IsLowest(senders, selected[0])
    ensures selected == [] ==> Pooled(senders) == {}
  {
    forall a | a in senders
      ensures senders[a].txs != [] && Latest(senders)[a] != [] && Latest(senders)[a][0] == LastOf(senders, a)
    {
      assert SenderOk(a, senders[a]);
      ReversedAt(senders[a].txs);
    }
    if selected != [] {
      var tx := selected[0];
      assert tx in selected && tx.from in senders;
      assert selected[..0] == [] && BestAt(Latest(senders), selected, 0, Lowest);
      FirstOfSender(selected);
    } else {
      assert forall a :: a in senders ==> OfSender([], a) == [];
      assert senders == map[];
    }
  }

  method GetFromLowestPriority(senders: Senders) returns (selected: seq<Tx>)
    requires PoolOk(senders)
    ensures GreedyMerge(Latest(senders), selected, Lowest) && FirstCome(Latest(senders), selected, Lowest)
    ensures LowestFirst(senders, selected)
    ensures selected != [] ==> IsLowest(senders, selected[0])
    ensures selected == [] ==> Pooled(senders) == {}
  {
    OwnersKept(senders);
    selected := GetTransactions(Latest(senders), Lowest);
    FirstIsLowest(senders, selected);
    LowestPaysLeast(senders, selected);
  }

  lemma {:induction false} CountOfSender(txs: seq<Tx>, x: Tx)
    ensures multiset(txs)[x] == multiset(OfSender(txs, x.from))[x]
  {
    if txs == [] {
    } else {
      var front, last := txs[..|txs| - 1], txs[|txs| - 1];
      CountOfSender(front, x);
      assert txs == front + [last];
    }
  }

  /** Every pooled transaction is returned as often as it is pooled. */
  lemma {:induction false} MergePermutes(queues: map<Address, seq<Tx>>, txs: seq<Tx>, order: Order, x: Tx)
    requires GreedyMerge(queues, txs, order)
    ensures multiset(txs)[x] == if x.from in queues then multiset(queues[x.from])[x] else 0
  {
    CountOfSender(txs, x);
  }

  lemma MergedOf(senders: Senders, txs: seq<Tx>, order: Order, x: Tx)
    requires PoolOk(senders) && GreedyMerge(Earliest(senders), txs, order) && x in txs
    ensures x.from in senders && OfSender(txs, x.from) == senders[x.from].txs && SenderOk(x.from, senders[x.from])
  {
    hide Chained, OfSender, BestAt;
  }

  lemma NextOfSender(txs: seq<Tx>, k: nat)
    requires k < |txs|
    ensures var a := txs[k].from;
      var taken := |OfSender(txs[..k], a)|;
      taken < |OfSender(txs, a)| && OfSender(txs, a)[taken] == txs[k]
  {
    hide OfSender;
    var a := txs[k].from;
    OfSenderPrefix(txs, k + 1, a);
    OfSenderAppend(txs[..k], txs[k], a);
    assert txs[..k + 1] == txs[..k] + [txs[k]];
  }

  /** Wherever the list is read up to, the next transaction has exactly the nonce its account reaches after the ones
      before it. */
  lemma NextNonce(senders: Senders, txs: seq<Tx>, order: Order, k: nat)
    requires PoolOk(senders) && GreedyMerge(Earliest(senders), txs, order) && k < |txs|
    ensures txs[k].from in senders
    ensures txs[k].nonce == senders[txs[k].from].account.nonce + |OfSender(txs[..k], txs[k].from)|
  {
    hide GreedyMerge, OfSender, TotalCost;
    MergedOf(senders, txs, order, txs[k]);
    NextOfSender(txs, k);
  }

  // The forger's batches

  /** Four bytes of length and the serialized transaction, each. */
  function Bytes(txs: seq<Tx>): nat {
    if txs == [] then 0 else Bytes(txs[..|txs| - 1]) + 4 + txs[|txs| - 1].size
  }

  lemma BytesAppend(txs: seq<Tx>, x: Tx)
    ensures Bytes(txs + [x]) == Bytes(txs) + 4 + x.size
  {
    assert (txs + [x])[..|txs|] == txs;
  }

  lemma BytesOfNone()
    ensures Bytes([]) == 0
  {
  }

  lemma SliceGrows<T>(s: seq<T>, from: nat, to: nat)
    requires from <= to < |s|
    ensures s[from..to] + [s[to]] == s[from..to + 1]
  {
  }

  lemma SlicesJoin<T>(s: seq<T>, from: nat, middle: nat, to: nat)
    requires from <= middle <= to <= |s|
    ensures s[from..middle] + s[middle..to] == s[from..to]
  {
  }

  const MAX_BYTES := 10_000_000
  const MAX_SIZE := 100

  /** Where a batch starts: at the beginning for a new block and round, else where the last one ended. */
  function Start(blockRound: string, prepared: string, index: nat): nat {
    if blockRound == prepared then index else 0
  }

  class Selector {
    var transactions: seq<Tx>
    var currentBlockRound: string
    var index: nat

    predicate Valid()
      reads this
    {
      index <= |transactions|
    }

    constructor ()
      ensures Valid() && transactions == [] && currentBlockRound == "" && index == 0
    {
      transactions, currentBlockRound, index := [], "", 0;
    }

    method Prepare(senders: Senders, blockRound: string)
      requires Valid() && PoolOk(senders)
      modifies this
      ensures Valid() && currentBlockRound == blockRound
      ensures blockRound == old(currentBlockRound) ==> index == old(index) && transactions == old(transactions)
      ensures blockRound != old(currentBlockRound) ==>
        index == 0 && GreedyMerge(Earliest(senders), transactions, Highest) && HighestFirst(senders, transactions)
    {
      if currentBlockRound == blockRound {
        return;
      }
      currentBlockRound := blockRound;
      index := 0;
      transactions := GetFromHighestPriority(senders);
    }

    /** The next stretch of the list prepared for this block and round: as long as the two limits allow, but never
        empty while a transaction fits. */
    method GetBatch(senders: Senders, blockRound: string, maxBytes: int, maxSize: int)
      returns (batch: seq<Tx>, remaining: nat)
      requires Valid() && PoolOk(senders)
      modifies this
      ensures Valid() && currentBlockRound == blockRound
      ensures blockRound == old(currentBlockRound) ==> transactions == old(transactions)
      ensures blockRound != old(currentBlockRound) ==>
        GreedyMerge(Earliest(senders), transactions, Highest) && HighestFirst(senders, transactions)
      ensures Start(blockRound, old(currentBlockRound), old(index)) <= index
      ensures batch == transactions[Start(blockRound, old(currentBlockRound), old(index))..index]
      ensures remaining == |transactions| - index
      ensures batch != [] ==> Bytes(batch) <= maxBytes && (|batch| == 1 || |batch| <= maxSize)
      ensures index < |transactions| ==>
        Bytes(batch) + 4 + transactions[index].size > maxBytes || (|batch| >= 1 && |batch| >= maxSize)
    {
      hide GreedyMerge, PoolOk, HighestFirst;
      Prepare(senders, blockRound);
      batch := Fill(maxBytes, maxSize);
      remaining := |transactions| - index;
    }

    method Fill(maxBytes: int, maxSize: int) returns (batch: seq<Tx>)
      requires Valid()
      modifies this`index
      ensures Valid() && old(index) <= index && batch == transactions[old(index)..index]
      ensures batch != [] ==> Bytes(batch) <= maxBytes && (|batch| == 1 || |batch| <= maxSize)
      ensures index < |transactions| ==>
        Bytes(batch) + 4 + transactions[index].size > maxBytes || (|batch| >= 1 && |batch| >= maxSize)
    {
      hide Bytes;
      batch := [];
      BytesOfNone();
      var bytesLeft := maxBytes;
      ghost var start := index;
      while index < |transactions|
        invariant start <= index <= |transactions| && batch == transactions[start..index]
        invariant bytesLeft == maxBytes - Bytes(batch)
        invariant batch != [] ==> bytesLeft >= 0 && |batch| < maxSize
        decreases |transactions| - index
      {
        var transaction := transactions[index];
        if bytesLeft - 4 - transaction.size < 0 {
          break;
        }
        BytesAppend(batch, transaction);
        SliceGrows(transactions, start, index);
        batch := batch + [transaction];
        bytesLeft := bytesLeft - 4;
        bytesLeft := bytesLeft - transaction.size;
        index := index + 1;
        if |batch| >= maxSize {
          break;
        }
      }
    }
  }

  /** A transaction that fits into an empty batch. */
  predicate Fits(x: Tx) {
    4 + x.size <= MAX_BYTES
  }

  lemma {:induction false} EachFits(batch: seq<Tx>)
    requires batch != [] ==> Bytes(batch) <= MAX_BYTES
    ensures forall x :: x in batch ==> Fits(x)
  {
    if batch == [] {
    } else {
      EachFits(batch[..|batch| - 1]);
      assert batch == batch[..|batch| - 1] + [batch[|batch| - 1]];
    }
  }

  /** The transactions one collation iterates over: for a new block and round the whole list, each transaction once and
      in order, up to the first one that no batch can hold. */
  method Iterate(selector: Selector, senders: Senders, blockRound: string) returns (yielded: seq<Tx>)
    requires selector.Valid() && PoolOk(senders)
    modifies selector
    ensures selector.Valid() && selector.currentBlockRound == blockRound
    ensures blockRound != old(selector.currentBlockRound) ==>
      GreedyMerge(Earliest(senders), selector.transactions, Highest) && HighestFirst(senders, yielded)
    ensures Start(blockRound, old(selector.currentBlockRound), old(selector.index)) <= selector.index
    ensures yielded ==
      selector.transactions[Start(blockRound, old(selector.currentBlockRound), old(selector.index))..selector.index]
    ensures forall x :: x in yielded ==> 4 + x.size <= 10_000_000
    ensures selector.index < |selector.transactions| ==>
      4 + selector.transactions[selector.index].size > 10_000_000
  {
    hide GreedyMerge, PoolOk, HighestFirst, Bytes;
    BytesOfNone();
    var batch, remaining := selector.GetBatch(senders, blockRound, MAX_BYTES, MAX_SIZE);
    yielded := batch;
    ghost var start := Start(blockRound, old(selector.currentBlockRound), old(selector.index));
    ghost var list := selector.transactions;
    EachFits(batch);
    while batch != []
      invariant selector.Valid() && selector.currentBlockRound == blockRound && selector.transactions == list
      invariant start <= selector.index && yielded == list[start..selector.index]
      invariant forall x :: x in yielded ==> Fits(x)
      invariant batch == [] && selector.index < |list| ==> !Fits(list[selector.index])
      decreases |list| - selector.index, |batch|
    {
      ghost var middle := selector.index;
      batch, remaining := selector.GetBatch(senders, blockRound, MAX_BYTES, MAX_SIZE);
      EachFits(batch);
      SlicesJoin(list, start, middle, selector.index);
      yielded := yielded + batch;
    }
    if blockRound != old(selector.currentBlockRound) {
      HighestFirstPrefix(senders, list, selector.index);
      SlicesJoin(list, 0, 0, selector.index);
    }
  }
}
