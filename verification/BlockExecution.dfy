/** The block producer and the block verifier over one deterministic EVM: the forger executes pool transactions
    optimistically and packs those that succeed; the processor executes the packed list again and compares totals. */
module BlockExecution {
  import opened Wrappers
  import opened SenderPool
  import opened PoolService
  import opened PriorityQuery

  datatype Milestone = Milestone(maxGasLimit: nat, maxPayload: nat, version: nat, reward: nat, evmSpec: nat,
                                 validatorRegistrationFee: nat, roundValidators: nat)

  datatype Network = Network(milestone: nat -> Milestone, isNewRound: nat -> bool, headerSize: nat)

  /** The last committed block, as far as the next one depends on it. */
  datatype Tip = Tip(number: nat, hash: nat, stateRoot: nat, randaoReveal: nat)

  datatype Block = Block(version: nat, number: nat, round: nat, timestamp: nat, proposer: Address, parentHash: nat,
                         stateRoot: nat, logsBloom: nat, gasUsed: nat, fee: nat, reward: nat, payloadSize: nat,
                         transactionsCount: nat, transactions: seq<Tx>)

  datatype Context = Context(number: nat, round: nat, gasLimit: nat, prevrandao: nat, timestamp: nat,
                             validator: Address)

  datatype Update = Update(amount: nat, spec: nat, timestamp: nat, validator: Address)

  /** The EVM: `process` gives the next state and the gas used, or fails. */
  datatype Machine<!S> = Machine(
    prepare: (S, Context) -> S,
    process: (S, Tx, nat) -> Option<(S, nat)>,
    rewardsAndVotes: (S, Update) -> S,
    registrationFee: (S, Update) -> S,
    roundValidators: (S, Update) -> S,
    stateRoot: (S, nat) -> nat,
    logsBloom: S -> nat)

  /** No transaction uses more gas than its limit. */
  ghost predicate Metered<S(!new)>(m: Machine<S>) {
    forall s: S, tx: Tx, spec: nat ::
      m.process(s, tx, spec).Some? ==> m.process(s, tx, spec).value.1 <= tx.gasLimit
  }

  function Consumed(gasPrice: nat, gasUsed: nat): nat {
    gasPrice * gasUsed
  }

  datatype Totals<S> = Totals(state: S, gas: nat, fee: nat)

  /** Executing a list of transactions in order, none of which may fail. */
  function Replay<S>(m: Machine<S>, s: S, txs: seq<Tx>, spec: nat): Option<Totals<S>> {
    if txs == [] then Some(Totals(s, 0, 0))
    else
      var last := txs[|txs| - 1];
      match Replay(m, s, txs[..|txs| - 1], spec)
      case None => None
      case Some(t) =>
        match m.process(t.state, last, spec)
        case None => None
        case Some((after, gas)) => Some(Totals(after, t.gas + gas, t.fee + Consumed(last.gasPrice, gas)))
  }

  lemma ReplayAppend<S>(m: Machine<S>, s: S, txs: seq<Tx>, tx: Tx, spec: nat)
    ensures Replay(m, s, txs + [tx], spec) ==
      match Replay(m, s, txs, spec)
      case None => None
      case Some(t) =>
        match m.process(t.state, tx, spec)
        case None => None
        case Some((after, gas)) => Some(Totals(after, t.gas + gas, t.fee + Consumed(tx.gasPrice, gas)))
  {
  }

  /** A replay of a list runs through the replays of its prefixes, and totals only grow. */
  lemma {:induction false} ReplayPrefix<S>(m: Machine<S>, s: S, txs: seq<Tx>, k: nat, spec: nat)
    requires k <= |txs| && Replay(m, s, txs, spec).Some?
    ensures Replay(m, s, txs[..k], spec).Some?
    ensures Replay(m, s, txs[..k], spec).value.gas <= Replay(m, s, txs, spec).value.gas
    ensures Replay(m, s, txs[..k], spec).value.fee <= Replay(m, s, txs, spec).value.fee
  {
    if k < |txs| {
      ReplayPrefix(m, s, txs[..|txs| - 1], k, spec);
      assert txs[..|txs| - 1][..k] == txs[..k];
    } else {
      assert txs[..k] == txs;
    }
  }

  /** The updates at the end of block `number`, with the milestone of the block after it where a new round starts. */
  function Settled<S>(m: Machine<S>, net: Network, s: S, number: nat, timestamp: nat, validator: Address): S {
    var now, next := net.milestone(number), net.milestone(number + 1);
    var rewarded := m.rewardsAndVotes(s, Update(now.reward, now.evmSpec, timestamp, validator));
    if net.isNewRound(number + 1) then
      m.roundValidators(
        m.registrationFee(rewarded, Update(next.validatorRegistrationFee, next.evmSpec, timestamp, validator)),
        Update(next.roundValidators, next.evmSpec, timestamp, validator))
    else
      rewarded
  }

  // The EVM instance

  class Evm<S> {
    const m: Machine<S>
    var state: S
    var saved: Option<S>

    constructor (m: Machine<S>, state: S)
      ensures this.m == m && this.state == state && saved == None
    {
      this.m, this.state, saved := m, state, None;
    }

    method Process(tx: Tx, spec: nat) returns (gasUsed: Option<nat>)
      modifies this`state
      ensures match m.process(old(state), tx, spec)
        case None => gasUsed == None && state == old(state)
        case Some((after, gas)) => gasUsed == Some(gas) && state == after
    {
      match m.process(state, tx, spec)
      case None =>
        gasUsed := None;
      case Some((after, gas)) =>
        state, gasUsed := after, Some(gas);
    }

    method Snapshot()
      modifies this`saved
      ensures saved == Some(state)
    {
      saved := Some(state);
    }

    method Rollback() returns (ok: bool)
      modifies this
      ensures ok == old(saved).Some?
      ensures ok ==> state == old(saved).value && saved == None
      ensures !ok ==> state == old(state) && saved == old(saved)
    {
      ok := saved.Some?;
      if ok {
        state, saved := saved.value, None;
      }
    }
  }

  // The forger

  ghost predicate FailsAt<S>(m: Machine<S>, s: S, collated: seq<Tx>, k: nat, tx: Tx, spec: nat)
    requires k <= |collated|
  {
    && Replay(m, s, collated[..k], spec).Some?
    && m.process(Replay(m, s, collated[..k], spec).value.state, tx, spec) == None
  }

  /** The sender of `tx` failed: some transaction of it did not execute on top of a prefix of the collated list. */
  ghost predicate Fails<S>(m: Machine<S>, s: S, collated: seq<Tx>, tx: Tx, spec: nat) {
    exists k :: 0 <= k <= |collated| && FailsAt(m, s, collated, k, tx, spec)
  }

  lemma FailsGrows<S>(m: Machine<S>, s: S, collated: seq<Tx>, more: seq<Tx>, tx: Tx, spec: nat)
    requires Fails(m, s, collated, tx, spec)
    ensures Fails(m, s, collated + more, tx, spec)
  {
    var k :| 0 <= k <= |collated| && FailsAt(m, s, collated, k, tx, spec);
    assert (collated + more)[..k] == collated[..k];
    assert FailsAt(m, s, collated + more, k, tx, spec);
  }

  predicate Subsequence(xs: seq<Tx>, ys: seq<Tx>) {
    xs == [] || (ys != [] &&
      var ys' := ys[..|ys| - 1];
      (Subsequence(xs, ys') || (xs[|xs| - 1] == ys[|ys| - 1] && Subsequence(xs[..|xs| - 1], ys'))))
  }

  lemma SubsequenceGrows(xs: seq<Tx>, ys: seq<Tx>, y: Tx)
    requires Subsequence(xs, ys)
    ensures Subsequence(xs, ys + [y]) && Subsequence(xs + [y], ys + [y])
  {
  }

  function SendersOf(txs: seq<Tx>): set<Address> {
    set x | x in txs :: x.from
  }

  ghost predicate Overflows<S>(m: Machine<S>, s: S, tx: Tx, spec: nat, gasLeft: int) {
    m.process(s, tx, spec).Some? && m.process(s, tx, spec).value.1 > gasLeft
  }

  /** What a collated block holds after going through `seen`: executed on the state it started from with exactly these
      totals, in the order seen, of every sender a prefix, and everything of a sender that never failed unless a
      transaction did not fit any more. */
  ghost predicate Collated<S>(m: Machine<S>, s: S, spec: nat, maxGas: nat, seen: seq<Tx>, txs: seq<Tx>,
                              removed: seq<Tx>, state: S, gasUsed: nat, fee: nat, gasLeft: int) {
    && Replay(m, s, txs, spec) == Some(Totals(state, gasUsed, fee))
    && gasUsed <= maxGas && gasLeft <= maxGas - gasUsed && (gasLeft >= 0 ==> gasUsed + gasLeft == maxGas)
    && Subsequence(txs, seen)
    && (forall a :: OfSender(txs, a) <= OfSender(seen, a))
    && (gasLeft >= 0 ==> forall a :: a !in SendersOf(removed) ==> OfSender(txs, a) == OfSender(seen, a))
    && (gasLeft < 0 ==> exists x :: x in seen && Overflows(m, state, x, spec, maxGas - gasUsed))
    && (forall x :: x in removed ==> x in seen && Fails(m, s, txs, x, spec))
  }

  lemma CollatedSkips<S>(m: Machine<S>, s: S, spec: nat, maxGas: nat, seen: seq<Tx>, txs: seq<Tx>, removed: seq<Tx>,
                         state: S, gasUsed: nat, fee: nat, gasLeft: int, tx: Tx)
    requires Collated(m, s, spec, maxGas, seen, txs, removed, state, gasUsed, fee, gasLeft)
    requires tx.from in SendersOf(removed)
    ensures Collated(m, s, spec, maxGas, seen + [tx], txs, removed, state, gasUsed, fee, gasLeft)
  {
    hide Replay, OfSender, Fails, Subsequence, Overflows;
    SubsequenceGrows(txs, seen, tx);
    if gasLeft < 0 {
      var x :| x in seen && Overflows(m, state, x, spec, maxGas - gasUsed);
      assert x in seen + [tx];
    }
    forall a ensures OfSender(seen, a) <= OfSender(seen + [tx], a) {
      OfSenderAppend(seen, tx, a);
    }
    forall a | a !in SendersOf(removed) ensures OfSender(seen, a) == OfSender(seen + [tx], a) {
      OfSenderAppend(seen, tx, a);
    }
  }

  lemma CollatedRemoves<S>(m: Machine<S>, s: S, spec: nat, maxGas: nat, seen: seq<Tx>, txs: seq<Tx>, removed: seq<Tx>,
                           state: S, gasUsed: nat, fee: nat, gasLeft: int, tx: Tx)
    requires Collated(m, s, spec, maxGas, seen, txs, removed, state, gasUsed, fee, gasLeft)
    requires gasLeft >= 0 && m.process(state, tx, spec) == None
    ensures Collated(m, s, spec, maxGas, seen + [tx], txs, removed + [tx], state, gasUsed, fee, gasLeft)
  {
    hide Replay, OfSender, Subsequence;
    assert tx in removed + [tx] && tx.from in SendersOf(removed + [tx]);
    assert SendersOf(removed) <= SendersOf(removed + [tx]);
    assert Fails(m, s, txs, tx, spec) by {
      assert txs[..|txs|] == txs;
      assert FailsAt(m, s, txs, |txs|, tx, spec);
    }
    hide Fails;
    SubsequenceGrows(txs, seen, tx);
    forall a ensures OfSender(seen, a) <= OfSender(seen + [tx], a) {
      OfSenderAppend(seen, tx, a);
    }
    forall a | a !in SendersOf(removed + [tx]) ensures OfSender(seen, a) == OfSender(seen + [tx], a) {
      OfSenderAppend(seen, tx, a);
    }
  }

  lemma CollatedOverflows<S>(m: Machine<S>, s: S, spec: nat, maxGas: nat, seen: seq<Tx>, txs: seq<Tx>, removed: seq<Tx>,
                             state: S, gasUsed: nat, fee: nat, gasLeft: int, less: int, tx: Tx)
    requires Collated(m, s, spec, maxGas, seen, txs, removed, state, gasUsed, fee, gasLeft)
    requires gasLeft >= 0 && m.process(state, tx, spec).Some?
    requires less == gasLeft - m.process(state, tx, spec).value.1 < 0
    ensures Collated(m, s, spec, maxGas, seen + [tx], txs, removed, state, gasUsed, fee, less)
  {
    hide Replay, OfSender, Fails, Subsequence;
    assert tx in seen + [tx] && Overflows(m, state, tx, spec, maxGas - gasUsed);
    SubsequenceGrows(txs, seen, tx);
    forall a ensures OfSender(seen, a) <= OfSender(seen + [tx], a) {
      OfSenderAppend(seen, tx, a);
    }
  }

  lemma CollatedAdds<S>(m: Machine<S>, s: S, spec: nat, maxGas: nat, seen: seq<Tx>, txs: seq<Tx>, removed: seq<Tx>,
                        state: S, gasUsed: nat, fee: nat, gasLeft: int, tx: Tx)
    requires Collated(m, s, spec, maxGas, seen, txs, removed, state, gasUsed, fee, gasLeft)
    requires gasLeft >= 0 && tx.from !in SendersOf(removed)
    requires m.process(state, tx, spec).Some? && m.process(state, tx, spec).value.1 <= gasLeft
    ensures var (after, gas) := m.process(state, tx, spec).value;
      Collated(m, s, spec, maxGas, seen + [tx], txs + [tx], removed, after, gasUsed + gas,
               fee + Consumed(tx.gasPrice, gas), gasLeft - gas)
  {
    hide Replay, OfSender, Fails, Subsequence, Consumed;
    ReplayAppend(m, s, txs, tx, spec);
    SubsequenceGrows(txs, seen, tx);
    forall a
      ensures OfSender(txs + [tx], a) <= OfSender(seen + [tx], a)
      ensures OfSender(txs, a) == OfSender(seen, a) ==> OfSender(txs + [tx], a) == OfSender(seen + [tx], a)
    {
      OfSenderAppend(seen, tx, a);
      OfSenderAppend(txs, tx, a);
    }
    forall x | x in removed ensures Fails(m, s, txs + [tx], x, spec) {
      FailsGrows(m, s, txs, [tx], x, spec);
    }
  }

  lemma CollationStarts<S>(m: Machine<S>, s: S, spec: nat, maxGas: nat)
    ensures Collated(m, s, spec, maxGas, [], [], [], s, 0, 0, maxGas)
  {
  }

  lemma CollationContinues<S>(m: Machine<S>, s: S, spec: nat, maxGas: nat, seen: seq<Tx>, txs: seq<Tx>,
                              removed: seq<Tx>, state: S, gasUsed: nat, fee: nat, gasLeft: int, tx: Tx,
                              txs': seq<Tx>, removed': seq<Tx>, state': S, gasUsed': nat, fee': nat, gasLeft': int)
    requires Collated(m, s, spec, maxGas, seen, txs, removed, state, gasUsed, fee, gasLeft)
    requires gasLeft >= 0 && tx.from !in SendersOf(removed)
    requires match m.process(state, tx, spec)
      case None =>
        && state' == state && gasLeft' == gasLeft && gasUsed' == gasUsed && fee' == fee && txs' == txs
        && removed' == removed + [tx]
      case Some((after, gas)) =>
        && removed' == removed && gasLeft' == gasLeft - gas
        && if gas <= gasLeft
           then state' == after && gasUsed' == gasUsed + gas && fee' == fee + Consumed(tx.gasPrice, gas)
                && txs' == txs + [tx]
           else state' == state && gasUsed' == gasUsed && fee' == fee && txs' == txs
    ensures Collated(m, s, spec, maxGas, seen + [tx], txs', removed', state', gasUsed', fee', gasLeft')
    ensures SendersOf(removed + [tx]) == SendersOf(removed) + {tx.from}
  {
    hide Collated, Consumed;
    match m.process(state, tx, spec)
    case None =>
      CollatedRemoves(m, s, spec, maxGas, seen, txs, removed, state, gasUsed, fee, gasLeft, tx);
    case Some((after, gas)) =>
      if gas <= gasLeft {
        CollatedAdds(m, s, spec, maxGas, seen, txs, removed, state, gasUsed, fee, gasLeft, tx);
      } else {
        CollatedOverflows(m, s, spec, maxGas, seen, txs, removed, state, gasUsed, fee, gasLeft, gasLeft', tx);
      }
  }

  class TransactionForger<S(!new)> {
    const net: Network
    const previousBlock: Tip
    const round: nat
    const timestamp: nat
    const generator: Address
    const evm: Evm<S>
    var failedSenders: set<Address>
    var removed: seq<Tx>
    var fee: nat
    var gasLeft: int
    var gasUsed: nat
    var transactions: seq<Tx>

    constructor (net: Network, previousBlock: Tip, round: nat, timestamp: nat, generator: Address, evm: Evm<S>)
      ensures this.net == net && this.previousBlock == previousBlock && this.round == round
      ensures this.timestamp == timestamp && this.generator == generator && this.evm == evm
      ensures failedSenders == {} && removed == []
      ensures fee == 0 && gasLeft == 0 && gasUsed == 0 && transactions == []
    {
      this.net, this.previousBlock, this.round, this.timestamp := net, previousBlock, round, timestamp;
      this.generator, this.evm, failedSenders, removed := generator, evm, {}, [];
      fee, gasLeft, gasUsed, transactions := 0, 0, 0, [];
    }

    function Spec(): nat {
      net.milestone(previousBlock.number + 1).evmSpec
    }

    /** Executes one transaction; only one that succeeds within the remaining block space leaves a trace in the EVM.
        An overflow that was not announced by the gas limit is impossible. */
    method ProcessTransaction(tx: Tx)
      requires Metered(evm.m) && gasLeft >= 0
      modifies this, evm
      ensures match evm.m.process(old(evm.state), tx, Spec())
        case None =>
          && evm.state == old(evm.state) && gasLeft == old(gasLeft) && gasUsed == old(gasUsed) && fee == old(fee)
          && transactions == old(transactions)
          && failedSenders == old(failedSenders) + {tx.from} && removed == old(removed) + [tx]
        case Some((after, gas)) =>
          && failedSenders == old(failedSenders) && removed == old(removed) && gasLeft == old(gasLeft) - gas
          && if gas <= old(gasLeft)
             then evm.state == after && gasUsed == old(gasUsed) + gas
                  && fee == old(fee) + Consumed(tx.gasPrice, gas) && transactions == old(transactions) + [tx]
             else evm.state == old(evm.state) && gasUsed == old(gasUsed) && fee == old(fee)
                  && transactions == old(transactions)
    {
      var optimisticExecution := gasLeft - tx.gasLimit < 0;
      var snapshotTaken := false;
      if optimisticExecution {
        evm.Snapshot();
        snapshotTaken := true;
      }
      var used := evm.Process(tx, Spec());
      if used.Some? {
        gasLeft := gasLeft - used.value;
        if gasLeft < 0 {
          if snapshotTaken {
            var ok := evm.Rollback();
            assert ok;
            return;
          } else {
            assert false;
          }
        }
        gasUsed := gasUsed + used.value;
        fee := fee + Consumed(tx.gasPrice, used.value);
        transactions := transactions + [tx];
      } else {
        if snapshotTaken {
          var ok := evm.Rollback();
          assert ok;
        }
        removed := removed + [tx];
        failedSenders := failedSenders + {tx.from};
      }
    }

    /** Collates `list`: everything of the senders that did not fail, unless the time or the block space ran out. */
    method ProcessTransactions(list: seq<Tx>, clock: nat -> int, timeLimit: int)
      returns (late: bool, ghost seen: seq<Tx>)
      requires Metered(evm.m) && failedSenders == {} && removed == []
      modifies this, evm
      ensures failedSenders == SendersOf(removed)
      ensures seen <= list && (seen == list || late || gasLeft < 21000)
      ensures
        Collated(evm.m, old(evm.state), Spec(), MaxGas(), seen, transactions, removed, evm.state, gasUsed, fee, gasLeft)
      ensures late ==> exists i :: 0 <= i < |list| && clock(i) > timeLimit
    {
      hide Collated, Metered;
      fee, gasLeft, gasUsed, transactions := 0, MaxGas(), 0, [];
      late := false;
      var i := 0;
      ghost var base := evm.state;
      CollationStarts(evm.m, base, Spec(), MaxGas());
      while i < |list|
        invariant 0 <= i <= |list| && !late
        invariant failedSenders == SendersOf(removed)
        invariant Collated(evm.m, base, Spec(), MaxGas(), list[..i], transactions, removed, evm.state, gasUsed, fee,
                           gasLeft)
        decreases |list| - i
      {
        if clock(i) > timeLimit {
          late := true;
          break;
        }
        var tx := list[i];
        assert list[..i + 1] == list[..i] + [tx];
        ghost var state, txs, gone, used, paid, left := evm.state, transactions, removed, gasUsed, fee, gasLeft;
        if tx.from in failedSenders {
          CollatedSkips(evm.m, base, Spec(), MaxGas(), list[..i], txs, gone, state, used, paid, left, tx);
          i := i + 1;
          continue;
        }
        if gasLeft < 21000 {
          break;
        }
        ProcessTransaction(tx);
        CollationContinues(evm.m, base, Spec(), MaxGas(), list[..i], txs, gone, state, used, paid, left, tx,
                           transactions, removed, evm.state, gasUsed, fee, gasLeft);
        i := i + 1;
      }
      seen := list[..i];
    }

    function MaxGas(): nat {
      net.milestone(previousBlock.number + 1).maxGasLimit
    }

    function BlockContext(): Context {
      Context(previousBlock.number + 1, round, MaxGas(), previousBlock.randaoReveal, timestamp, generator)
    }

    method UpdateRewardsAndVotes()
      modifies evm
      ensures evm.state == evm.m.rewardsAndVotes(old(evm.state),
          Update(net.milestone(previousBlock.number + 1).reward, Spec(), timestamp, generator))
    {
      var milestone := net.milestone(previousBlock.number + 1);
      evm.state := evm.m.rewardsAndVotes(evm.state, Update(milestone.reward, milestone.evmSpec, timestamp, generator));
    }

    method UpdateValidatorRegistrationFee()
      modifies evm
      ensures evm.state ==
        if !net.isNewRound(previousBlock.number + 2) then old(evm.state)
        else
          var next := net.milestone(previousBlock.number + 2);
          evm.m.registrationFee(old(evm.state),
            Update(next.validatorRegistrationFee, next.evmSpec, timestamp, generator))
    {
      if net.isNewRound(previousBlock.number + 2) {
        var next := net.milestone(previousBlock.number + 2);
        evm.state := evm.m.registrationFee(evm.state,
          Update(next.validatorRegistrationFee, next.evmSpec, timestamp, generator));
      }
    }

    method CalculateRoundValidators()
      modifies evm
      ensures evm.state ==
        if !net.isNewRound(previousBlock.number + 2) then old(evm.state)
        else
          var next := net.milestone(previousBlock.number + 2);
          evm.m.roundValidators(old(evm.state), Update(next.roundValidators, next.evmSpec, timestamp, generator))
    {
      if net.isNewRound(previousBlock.number + 2) {
        var next := net.milestone(previousBlock.number + 2);
        evm.state := evm.m.roundValidators(evm.state,
          Update(next.roundValidators, next.evmSpec, timestamp, generator));
      }
    }

    method GetTransactions(list: seq<Tx>, clock: nat -> int, timeLimit: int)
      returns (stateRoot: nat, logsBloom: nat, late: bool, ghost seen: seq<Tx>)
      requires Metered(evm.m) && failedSenders == {} && removed == []
      modifies this, evm
      ensures failedSenders == SendersOf(removed)
      ensures seen <= list && (seen == list || late || gasLeft < 21000)
      ensures late ==> exists i :: 0 <= i < |list| && clock(i) > timeLimit
      ensures exists state ::
        && Collated(evm.m, evm.m.prepare(old(evm.state), BlockContext()), Spec(), MaxGas(), seen, transactions, removed,
                    state, gasUsed, fee, gasLeft)
        && evm.state == Settled(evm.m, net, state, previousBlock.number + 1, timestamp, generator)
      ensures stateRoot == evm.m.stateRoot(evm.state, previousBlock.stateRoot)
      ensures logsBloom == evm.m.logsBloom(evm.state)
    {
      hide Collated, Metered;
      evm.state := evm.m.prepare(evm.state, BlockContext());
      late, seen := ProcessTransactions(list, clock, timeLimit);
      ghost var state := evm.state;
      assert Collated(evm.m, evm.m.prepare(old(evm.state), BlockContext()), Spec(), MaxGas(), seen, transactions,
                      removed, state, gasUsed, fee, gasLeft);
      UpdateRewardsAndVotes();
      UpdateValidatorRegistrationFee();
      CalculateRoundValidators();
      logsBloom := evm.m.logsBloom(evm.state);
      stateRoot := evm.m.stateRoot(evm.state, previousBlock.stateRoot);
    }
  }

  // The block around the transactions

  /** `PriorityQuery.Bytes` is what the transactions take up in the payload of a block. */
  method MakeBlock(net: Network, previousBlock: Tip, round: nat, proposer: Address, timestamp: nat, logsBloom: nat,
                   stateRoot: nat, gasUsed: nat, fee: nat, transactions: seq<Tx>) returns (block: Block)
    ensures block == Block(1, previousBlock.number + 1, round, timestamp, proposer, previousBlock.hash, stateRoot,
                           logsBloom, gasUsed, fee, net.milestone(previousBlock.number + 1).reward, Bytes(transactions),
                           |transactions|, transactions)
  {
    var number := previousBlock.number + 1;
    var payloadSize := |transactions| * 4;
    for i := 0 to |transactions|
      invariant payloadSize == Bytes(transactions[..i]) + 4 * (|transactions| - i)
    {
      assert transactions[..i + 1] == transactions[..i] + [transactions[i]];
      BytesAppend(transactions[..i], transactions[i]);
      payloadSize := payloadSize + transactions[i].size;
    }
    assert transactions[..|transactions|] == transactions;
    block := Block(1, number, round, timestamp, proposer, previousBlock.hash, stateRoot, logsBloom, gasUsed, fee,
                   net.milestone(number).reward, payloadSize, |transactions|, transactions);
  }

  // The processor

  ghost predicate DistinctHashes(txs: seq<Tx>) {
    forall i, j :: 0 <= i < j < |txs| ==> txs[i].hash != txs[j].hash
  }

  /** The verifiers that look at the modelled fields, in the order of the chain: parent, number, version, reward, gas
      limit, payload size and the transactions. */
  ghost predicate Verified(net: Network, previousBlock: Tip, block: Block) {
    var milestone := net.milestone(block.number);
    && block.parentHash == previousBlock.hash && block.number == previousBlock.number + 1
    && block.version == milestone.version && block.reward == milestone.reward
    && block.gasUsed <= milestone.maxGasLimit
    && net.headerSize + block.payloadSize <= milestone.maxPayload && block.payloadSize == Bytes(block.transactions)
    && |block.transactions| == block.transactionsCount && DistinctHashes(block.transactions)
  }

  method HasDuplicates(txs: seq<Tx>) returns (duplicate: bool)
    ensures duplicate <==> !DistinctHashes(txs)
  {
    var applied: set<nat> := {};
    duplicate := false;
    for i := 0 to |txs|
      invariant forall h :: h in applied <==> exists k :: 0 <= k < i && txs[k].hash == h
      invariant DistinctHashes(txs[..i])
    {
      if txs[i].hash in applied {
        return true;
      }
      applied := applied + {txs[i].hash};
      assert txs[..i + 1] == txs[..i] + [txs[i]];
    }
    assert txs[..|txs|] == txs;
  }

  method Verify(net: Network, previousBlock: Tip, block: Block) returns (ok: bool)
    ensures ok <==> Verified(net, previousBlock, block)
  {
    var milestone := net.milestone(block.number);
    if block.parentHash != previousBlock.hash || block.number != previousBlock.number + 1 {
      return false;
    }
    if block.version != milestone.version || block.reward != milestone.reward {
      return false;
    }
    if block.gasUsed > milestone.maxGasLimit {
      return false;
    }
    if net.headerSize + block.payloadSize > milestone.maxPayload {
      return false;
    }
    var totalPayloadSize := |block.transactions| * 4;
    for i := 0 to |block.transactions|
      invariant totalPayloadSize == Bytes(block.transactions[..i]) + 4 * (|block.transactions| - i)
    {
      assert block.transactions[..i + 1] == block.transactions[..i] + [block.transactions[i]];
      BytesAppend(block.transactions[..i], block.transactions[i]);
      totalPayloadSize := totalPayloadSize + block.transactions[i].size;
    }
    assert block.transactions[..|block.transactions|] == block.transactions;
    if totalPayloadSize != block.payloadSize || |block.transactions| != block.transactionsCount {
      return false;
    }
    var duplicate := HasDuplicates(block.transactions);
    return !duplicate;
  }

  function ContextOf(net: Network, previousBlock: Tip, block: Block): Context {
    Context(block.number, block.round, net.milestone(block.number).maxGasLimit, previousBlock.randaoReveal,
            block.timestamp, block.proposer)
  }

  /** The state a valid block leads to, if its transactions execute with exactly the totals it claims. */
  ghost function ResultOf<S>(m: Machine<S>, net: Network, previousBlock: Tip, s: S, block: Block): Option<S> {
    var spec := net.milestone(block.number).evmSpec;
    match Replay(m, m.prepare(s, ContextOf(net, previousBlock, block)), block.transactions, spec)
    case None => None
    case Some(t) =>
      if t.gas == block.gasUsed && t.fee == block.fee
      then Some(Settled(m, net, t.state, block.number, block.timestamp, block.proposer))
      else None
  }

  ghost predicate Accepts<S>(m: Machine<S>, net: Network, previousBlock: Tip, s: S, block: Block) {
    && Verified(net, previousBlock, block)
    && match ResultOf(m, net, previousBlock, s, block)
       case None => false
       case Some(after) =>
         m.stateRoot(after, previousBlock.stateRoot) == block.stateRoot && m.logsBloom(after) == block.logsBloom
  }

  /** The gas the `k`-th transaction of a list uses when the list is executed in order. */
  ghost function GasAt<S>(m: Machine<S>, s: S, txs: seq<Tx>, k: nat, spec: nat): Option<nat>
    requires k < |txs|
  {
    match Replay(m, s, txs[..k], spec)
    case None => None
    case Some(t) =>
      match m.process(t.state, txs[k], spec)
      case None => None
      case Some((_, gas)) => Some(gas)
  }

  // Totals in terms of receipts

  /** The gas the receipts of a list say was used. */
  function SumOfGas(txs: seq<Tx>, receipts: map<nat, nat>): nat {
    if txs == [] then 0
    else
      var last := txs[|txs| - 1];
      SumOfGas(txs[..|txs| - 1], receipts) + if last.hash in receipts then receipts[last.hash] else 0
  }

  /** What is paid for it. */
  function SumOfPaid(txs: seq<Tx>, receipts: map<nat, nat>): nat {
    if txs == [] then 0
    else
      var last := txs[|txs| - 1];
      SumOfPaid(txs[..|txs| - 1], receipts) + last.gasPrice * if last.hash in receipts then receipts[last.hash] else 0
  }

  /** Every transaction has a receipt with the gas it uses when the list is executed in order. */
  ghost predicate HasReceipts<S>(m: Machine<S>, s: S, txs: seq<Tx>, spec: nat, receipts: map<nat, nat>) {
    forall k :: 0 <= k < |txs| ==>
      txs[k].hash in receipts && GasAt(m, s, txs, k, spec) == Some(receipts[txs[k].hash])
  }

  lemma ReceiptsOfFront<S>(m: Machine<S>, s: S, txs: seq<Tx>, spec: nat, receipts: map<nat, nat>)
    requires HasReceipts(m, s, txs, spec, receipts) && txs != []
    ensures HasReceipts(m, s, txs[..|txs| - 1], spec, receipts)
  {
    hide Replay;
    var front := txs[..|txs| - 1];
    forall k | 0 <= k < |front|
      ensures front[k].hash in receipts && GasAt(m, s, front, k, spec) == Some(receipts[front[k].hash])
    {
      assert front[..k] == txs[..k] && front[k] == txs[k];
      assert GasAt(m, s, txs, k, spec) == Some(receipts[txs[k].hash]);
    }
  }

  /** The totals of an execution are the sums over its receipts: the gas used, and the gas used times the price. */
  lemma {:induction false} TotalsAreSums<S>(m: Machine<S>, s: S, txs: seq<Tx>, spec: nat, receipts: map<nat, nat>)
    requires Replay(m, s, txs, spec).Some? && HasReceipts(m, s, txs, spec, receipts)
    ensures Replay(m, s, txs, spec).value.gas == SumOfGas(txs, receipts)
    ensures Replay(m, s, txs, spec).value.fee == SumOfPaid(txs, receipts)
  {
    if txs == [] {
    } else {
      var last := |txs| - 1;
      ReceiptsOfFront(m, s, txs, spec, receipts);
      TotalsAreSums(m, s, txs[..last], spec, receipts);
      assert GasAt(m, s, txs, last, spec) == Some(receipts[txs[last].hash]);
    }
  }

  lemma TotalsAlwaysSums<S>(m: Machine<S>, s: S, txs: seq<Tx>, spec: nat)
    requires Replay(m, s, txs, spec).Some?
    ensures forall receipts :: HasReceipts(m, s, txs, spec, receipts) ==>
      && Replay(m, s, txs, spec).value.gas == SumOfGas(txs, receipts)
      && Replay(m, s, txs, spec).value.fee == SumOfPaid(txs, receipts)
  {
    hide Replay, HasReceipts, SumOfGas, SumOfPaid;
    forall receipts | HasReceipts(m, s, txs, spec, receipts)
      ensures Replay(m, s, txs, spec).value.gas == SumOfGas(txs, receipts)
      ensures Replay(m, s, txs, spec).value.fee == SumOfPaid(txs, receipts)
    {
      TotalsAreSums(m, s, txs, spec, receipts);
    }
  }

  lemma {:induction false} ReceiptsExist<S>(m: Machine<S>, s: S, txs: seq<Tx>, spec: nat)
    returns (receipts: map<nat, nat>)
    requires Replay(m, s, txs, spec).Some? && DistinctHashes(txs)
    ensures HasReceipts(m, s, txs, spec, receipts)
  {
    if txs == [] {
      receipts := map[];
    } else {
      var last := |txs| - 1;
      var before := ReceiptsExist(m, s, txs[..last], spec);
      receipts := before[txs[last].hash := GasAt(m, s, txs, last, spec).value];
      hide Replay;
      forall k | 0 <= k < last
        ensures txs[k].hash in receipts && GasAt(m, s, txs, k, spec) == Some(receipts[txs[k].hash])
      {
        assert txs[..last][..k] == txs[..k] && txs[..last][k] == txs[k];
        assert GasAt(m, s, txs[..last], k, spec) == Some(before[txs[..last][k].hash]);
        assert txs[k].hash != txs[last].hash;
      }
    }
  }

  lemma VerifiedFits(net: Network, previousBlock: Tip, block: Block)
    requires Verified(net, previousBlock, block)
    ensures DistinctHashes(block.transactions) && block.gasUsed <= net.milestone(block.number).maxGasLimit
    ensures net.headerSize + Bytes(block.transactions) <= net.milestone(block.number).maxPayload
  {
  }

  lemma ReplayNothing<S>(m: Machine<S>, s: S, spec: nat)
    ensures Replay(m, s, [], spec) == Some(Totals(s, 0, 0))
  {
  }

  /** A replay that got through gets through every transaction, never with larger totals than at the end. */
  lemma ReplayFailsAfter<S>(m: Machine<S>, s: S, txs: seq<Tx>, k: nat, spec: nat)
    requires k < |txs|
    ensures match Replay(m, s, txs, spec)
      case None => true
      case Some(t) =>
        match Replay(m, s, txs[..k + 1], spec)
        case None => false
        case Some(p) => p.gas <= t.gas && p.fee <= t.fee
  {
    hide Replay;
    if Replay(m, s, txs, spec).Some? {
      ReplayPrefix(m, s, txs, k + 1, spec);
    }
  }

  class BlockProcessor<S> {
    const net: Network
    const evm: Evm<S>

    constructor (net: Network, evm: Evm<S>)
      ensures this.net == net && this.evm == evm
    {
      this.net, this.evm := net, evm;
    }

    /** Succeeds on exactly the blocks whose header agrees with an execution of their transactions, and then leaves the
        EVM in the state that execution leads to. */
    method Process(previousBlock: Tip, block: Block)
      returns (success: bool, gasUsed: nat, feeUsed: nat, receipts: map<nat, nat>)
      modifies evm
      ensures success <==> Accepts(evm.m, net, previousBlock, old(evm.state), block)
      ensures success ==> gasUsed == block.gasUsed && feeUsed == block.fee
      ensures success ==> Some(evm.state) == ResultOf(evm.m, net, previousBlock, old(evm.state), block)
      ensures success ==>
        HasReceipts(evm.m, evm.m.prepare(old(evm.state), ContextOf(net, previousBlock, block)), block.transactions,
                    net.milestone(block.number).evmSpec, receipts)
      ensures success ==>
        && SumOfGas(block.transactions, receipts) == gasUsed <= net.milestone(block.number).maxGasLimit
        && SumOfPaid(block.transactions, receipts) == feeUsed
        && net.headerSize + Bytes(block.transactions) <= net.milestone(block.number).maxPayload
        && forall i, j :: 0 <= i < j < |block.transactions| ==> block.transactions[i].hash != block.transactions[j].hash
    {
      hide Verified, Replay, HasReceipts, SumOfGas, SumOfPaid;
      success, gasUsed, feeUsed, receipts := false, 0, 0, map[];
      var ok := Verify(net, previousBlock, block);
      if !ok {
        return;
      }
      VerifiedFits(net, previousBlock, block);
      evm.state := evm.m.prepare(evm.state, ContextOf(net, previousBlock, block));
      ghost var base := evm.state;
      gasUsed, feeUsed, receipts, ok := Execute(block, net.milestone(block.number).evmSpec);
      if !ok {
        return;
      }
      if gasUsed != block.gasUsed {
        return;
      }
      if feeUsed != block.fee {
        return;
      }
      TotalsAreSums(evm.m, base, block.transactions, net.milestone(block.number).evmSpec, receipts);
      UpdateRewardsAndVotes(block, net.milestone(block.number));
      if net.isNewRound(block.number + 1) {
        var nextMilestone := net.milestone(block.number + 1);
        UpdateValidatorRegistrationFee(block, nextMilestone);
        CalculateRoundValidators(block, nextMilestone);
      }
      if evm.m.stateRoot(evm.state, previousBlock.stateRoot) != block.stateRoot {
        return;
      }
      if evm.m.logsBloom(evm.state) != block.logsBloom {
        return;
      }
      success := true;
    }

    /** Executes the transactions one after another; stops at the first that fails or that takes a total over what the
        block claims. */
    method Execute(block: Block, spec: nat)
      returns (gasUsed: nat, feeUsed: nat, receipts: map<nat, nat>, ok: bool)
      requires DistinctHashes(block.transactions)
      modifies evm
      ensures ok ==>
        Replay(evm.m, old(evm.state), block.transactions, spec) == Some(Totals(evm.state, gasUsed, feeUsed))
      ensures ok ==> HasReceipts(evm.m, old(evm.state), block.transactions, spec, receipts)
      ensures !ok ==> match Replay(evm.m, old(evm.state), block.transactions, spec)
        case None => true
        case Some(t) => t.gas > block.gasUsed || t.fee > block.fee
      ensures gasUsed <= block.gasUsed && feeUsed <= block.fee
    {
      hide Replay, Consumed;
      var txs := block.transactions;
      gasUsed, feeUsed, receipts, ok := 0, 0, map[], false;
      ghost var base := evm.state;
      ReplayNothing(evm.m, base, spec);
      var i := 0;
      while i < |txs|
        invariant 0 <= i <= |txs| && !ok && gasUsed <= block.gasUsed && feeUsed <= block.fee
        invariant Replay(evm.m, base, txs[..i], spec) == Some(Totals(evm.state, gasUsed, feeUsed))
        invariant forall k :: 0 <= k < i ==>
          && txs[k].hash in receipts
          && GasAt(evm.m, base, txs, k, spec) == Some(receipts[txs[k].hash])
      {
        var tx := txs[i];
        ReplayFailsAfter(evm.m, base, txs, i, spec);
        assert txs[..i + 1] == txs[..i] + [tx];
        ReplayAppend(evm.m, base, txs[..i], tx, spec);
        var used := evm.Process(tx, spec);
        if used.None? {
          return;
        }
        receipts := receipts[tx.hash := used.value];
        if gasUsed + used.value > block.gasUsed {
          return;
        }
        gasUsed := gasUsed + used.value;
        var fee := Consumed(tx.gasPrice, used.value);
        if feeUsed + fee > block.fee {
          return;
        }
        feeUsed := feeUsed + fee;
        i := i + 1;
      }
      assert txs[..|txs|] == txs;
      ok := true;
    }

    method UpdateRewardsAndVotes(block: Block, milestone: Milestone)
      modifies evm
      ensures evm.state == evm.m.rewardsAndVotes(old(evm.state),
          Update(milestone.reward, milestone.evmSpec, block.timestamp, block.proposer))
    {
      evm.state := evm.m.rewardsAndVotes(evm.state,
        Update(milestone.reward, milestone.evmSpec, block.timestamp, block.proposer));
    }

    method UpdateValidatorRegistrationFee(block: Block, milestone: Milestone)
      modifies evm
      ensures evm.state == evm.m.registrationFee(old(evm.state),
          Update(milestone.validatorRegistrationFee, milestone.evmSpec, block.timestamp, block.proposer))
    {
      evm.state := evm.m.registrationFee(evm.state,
        Update(milestone.validatorRegistrationFee, milestone.evmSpec, block.timestamp, block.proposer));
    }

    method CalculateRoundValidators(block: Block, milestone: Milestone)
      modifies evm
      ensures evm.state == evm.m.roundValidators(old(evm.state),
          Update(milestone.roundValidators, milestone.evmSpec, block.timestamp, block.proposer))
    {
      evm.state := evm.m.roundValidators(evm.state,
        Update(milestone.roundValidators, milestone.evmSpec, block.timestamp, block.proposer));
    }
  }

  // A forged block is accepted

  lemma {:induction false} SubsequenceIsIn(xs: seq<Tx>, ys: seq<Tx>)
    requires Subsequence(xs, ys)
    ensures forall x :: x in xs ==> x in ys
    decreases |ys|
  {
    if xs == [] {
    } else {
      var ys' := ys[..|ys| - 1];
      if Subsequence(xs, ys') {
        SubsequenceIsIn(xs, ys');
      } else {
        SubsequenceIsIn(xs[..|xs| - 1], ys');
        assert xs == xs[..|xs| - 1] + [xs[|xs| - 1]];
      }
    }
  }

  lemma {:induction false} SubsequenceDistinct(xs: seq<Tx>, ys: seq<Tx>)
    requires Subsequence(xs, ys) && DistinctHashes(ys)
    ensures DistinctHashes(xs)
    decreases |ys|
  {
    if xs == [] {
    } else {
      var ys' := ys[..|ys| - 1];
      if Subsequence(xs, ys') {
        SubsequenceDistinct(xs, ys');
      } else {
        SubsequenceDistinct(xs[..|xs| - 1], ys');
        SubsequenceIsIn(xs[..|xs| - 1], ys');
        forall i | 0 <= i < |xs| - 1 ensures xs[i].hash != xs[|xs| - 1].hash {
          assert xs[i] in xs[..|xs| - 1];
        }
      }
    }
  }

  lemma {:induction false} SubsequencePrefix(xs: seq<Tx>, ys: seq<Tx>, zs: seq<Tx>)
    requires Subsequence(xs, ys) && ys <= zs
    ensures Subsequence(xs, zs)
    decreases |zs|
  {
    if |ys| < |zs| {
      SubsequencePrefix(xs, ys, zs[..|zs| - 1]);
    } else {
      assert ys == zs;
    }
  }

  /** A block the forger makes is accepted on the state it was made on, with the state, gas and fee the forger saw,
      exactly when its version is the configured one, it is not larger than a block may be, and no hash was offered and
      packed twice: the forger checks none of this. What it packs and leaves out is what `Collated` says of `seen`. */
  method ForgeBlock<S(!new)>(net: Network, previousBlock: Tip, generator: Address, round: nat, timestamp: nat,
                             evm: Evm<S>, list: seq<Tx>, clock: nat -> int, timeLimit: int)
    returns (block: Block, ghost seen: seq<Tx>, ghost removed: seq<Tx>, ghost state: S, ghost gasLeft: int)
    requires Metered(evm.m)
    modifies evm
    ensures block.gasUsed <= net.milestone(block.number).maxGasLimit && block.payloadSize == Bytes(block.transactions)
    ensures block.version == 1 && block.number == previousBlock.number + 1
    ensures Subsequence(block.transactions, list) && forall a :: OfSender(block.transactions, a) <= OfSender(list, a)
    ensures seen <= list
    ensures seen == list || gasLeft < 21000 || exists i :: 0 <= i < |list| && clock(i) > timeLimit
    ensures Collated(evm.m, evm.m.prepare(old(evm.state), ContextOf(net, previousBlock, block)),
                     net.milestone(block.number).evmSpec, net.milestone(block.number).maxGasLimit, seen,
                     block.transactions, removed, state, block.gasUsed, block.fee, gasLeft)
    ensures ResultOf(evm.m, net, previousBlock, old(evm.state), block) == Some(evm.state)
    ensures Accepts(evm.m, net, previousBlock, old(evm.state), block) <==>
      && net.milestone(previousBlock.number + 1).version == 1
      && net.headerSize + block.payloadSize <= net.milestone(previousBlock.number + 1).maxPayload
      && DistinctHashes(block.transactions)
    ensures DistinctHashes(list) ==> DistinctHashes(block.transactions)
    ensures forall receipts ::
      HasReceipts(evm.m, evm.m.prepare(old(evm.state), ContextOf(net, previousBlock, block)), block.transactions,
                  net.milestone(block.number).evmSpec, receipts) ==>
        block.gasUsed == SumOfGas(block.transactions, receipts) && block.fee == SumOfPaid(block.transactions, receipts)
  {
    var forger := new TransactionForger(net, previousBlock, round, timestamp, generator, evm);
    ghost var late;
    var stateRoot, logsBloom;
    stateRoot, logsBloom, late, seen := forger.GetTransactions(list, clock, timeLimit);
    block := MakeBlock(net, previousBlock, round, generator, timestamp, logsBloom, stateRoot, forger.gasUsed,
                       forger.fee, forger.transactions);
    removed, gasLeft := forger.removed, forger.gasLeft;
    assert forger.BlockContext() == ContextOf(net, previousBlock, block);
    state :| Collated(evm.m, evm.m.prepare(old(evm.state), forger.BlockContext()), forger.Spec(), forger.MaxGas(), seen,
                      forger.transactions, forger.removed, state, forger.gasUsed, forger.fee, forger.gasLeft) &&
             evm.state == Settled(evm.m, net, state, previousBlock.number + 1, timestamp, generator);
    TotalsAlwaysSums(evm.m, evm.m.prepare(old(evm.state), forger.BlockContext()), block.transactions, forger.Spec());
    SubsequencePrefix(block.transactions, seen, list);
    if DistinctHashes(list) {
      SubsequenceDistinct(block.transactions, list);
    }
    forall a ensures OfSender(block.transactions, a) <= OfSender(list, a) {
      OfSenderPrefix(list, |seen|, a);
      assert seen == list[..|seen|];
    }
  }

  /** Nonces in a forged block follow on from the accounts without gaps, whatever failed or was cut off. */
  lemma BlockNonces(senders: Senders, merged: seq<Tx>, txs: seq<Tx>, k: nat)
    requires PoolOk(senders) && GreedyMerge(Earliest(senders), merged, Highest)
    requires Subsequence(txs, merged) && (forall a :: OfSender(txs, a) <= OfSender(merged, a)) && k < |txs|
    ensures txs[k].from in senders
    ensures txs[k].nonce == senders[txs[k].from].account.nonce + |OfSender(txs[..k], txs[k].from)|
  {
    hide GreedyMerge, OfSender, TotalCost, Subsequence;
    SubsequenceIsIn(txs, merged);
    MergedOf(senders, merged, Highest, txs[k]);
    NextOfSender(txs, k);
  }

  lemma ListedIsPooled(senders: Senders, list: seq<Tx>, i: nat)
    requires PoolOk(senders) && GreedyMerge(Earliest(senders), list, Highest) && i < |list|
    ensures list[i] in Pooled(senders)
  {
    hide GreedyMerge, OfSender, Chained, PoolOk;
    MergedOf(senders, list, Highest, list[i]);
    NextOfSender(list, i);
    assert list[i] in senders[list[i].from].txs;
  }

  lemma ListedOnce(senders: Senders, list: seq<Tx>, i: nat, j: nat)
    requires PoolOk(senders) && GreedyMerge(Earliest(senders), list, Highest) && i < j < |list|
    ensures list[i] != list[j]
  {
    hide GreedyMerge, OfSender, Chained, PoolOk;
    var x := list[i];
    MergedOf(senders, list, Highest, x);
    MergePermutes(Earliest(senders), list, Highest, x);
    ChainCount(senders[x.from]);
    if list[j] == x {
      TwiceCounts(list, i, j);
    }
  }

  /** The pool holds no hash twice, so neither does the list the forger reads. */
  lemma PoolListIsDistinct(senders: Senders, rows: map<nat, Row>, list: seq<Tx>)
    requires PoolOk(senders) && Mirrors(senders, rows, {}) && GreedyMerge(Earliest(senders), list, Highest)
    ensures DistinctHashes(list)
  {
    hide GreedyMerge, OfSender, Chained, Pooled, Stored, PoolOk;
    PooledHashesDiffer(senders, rows, {});
    forall i, j | 0 <= i < j < |list| ensures list[i].hash != list[j].hash {
      ListedIsPooled(senders, list, i);
      ListedIsPooled(senders, list, j);
      ListedOnce(senders, list, i, j);
    }
  }

  lemma CollatedReplays<S>(m: Machine<S>, s: S, spec: nat, maxGas: nat, seen: seq<Tx>, txs: seq<Tx>,
                           removed: seq<Tx>, state: S, gasUsed: nat, fee: nat, gasLeft: int)
    requires Collated(m, s, spec, maxGas, seen, txs, removed, state, gasUsed, fee, gasLeft)
    ensures Replay(m, s, txs, spec).Some?
  {
  }

  /** The nonce of the `k`-th transaction is the one its account reaches after those before it. */
  ghost predicate FollowsOn(senders: Senders, txs: seq<Tx>, k: nat)
    requires k < |txs|
  {
    txs[k].from in senders &&
    txs[k].nonce == senders[txs[k].from].account.nonce + |OfSender(txs[..k], txs[k].from)|
  }

  /** From the pool to the verifier: a block forged for a new block and round from a consistent pool is accepted if and
      only if its version and size are right, and its nonces follow on from the accounts. */
  method ForgeFromPool<S(!new)>(pool: Service, selector: Selector, blockRound: string, net: Network, previousBlock: Tip,
                                generator: Address, round: nat, timestamp: nat, evm: Evm<S>, clock: nat -> int,
                                timeLimit: int) returns (block: Block, ghost receipts: map<nat, nat>)
    requires pool.Valid() && selector.Valid() && blockRound != selector.currentBlockRound && Metered(evm.m)
    modifies selector, evm
    ensures Accepts(evm.m, net, previousBlock, old(evm.state), block) <==>
      && net.milestone(previousBlock.number + 1).version == 1
      && net.headerSize + block.payloadSize <= net.milestone(previousBlock.number + 1).maxPayload
    ensures ResultOf(evm.m, net, previousBlock, old(evm.state), block) == Some(evm.state)
    ensures forall x :: x in block.transactions ==> x in Pooled(pool.senders)
    ensures forall k :: 0 <= k < |block.transactions| ==> FollowsOn(pool.senders, block.transactions, k)
    ensures HasReceipts(evm.m, evm.m.prepare(old(evm.state), ContextOf(net, previousBlock, block)), block.transactions,
                        net.milestone(block.number).evmSpec, receipts)
    ensures block.gasUsed == SumOfGas(block.transactions, receipts) <= net.milestone(block.number).maxGasLimit
    ensures block.fee == SumOfPaid(block.transactions, receipts)
  {
    hide HasReceipts, SumOfGas, SumOfPaid, Replay, GreedyMerge, OfSender, Pooled, Stored, PoolOk, Metered, Accepts,
         ResultOf, Collated;
    var list := Iterate(selector, pool.senders, blockRound);
    ghost var merged := selector.transactions;
    ghost var seen, removed, state, gasLeft;
    block, seen, removed, state, gasLeft := ForgeBlock(net, previousBlock, generator, round, timestamp, evm, list,
                                                       clock, timeLimit);
    CollatedReplays(evm.m, evm.m.prepare(old(evm.state), ContextOf(net, previousBlock, block)),
                    net.milestone(block.number).evmSpec, net.milestone(block.number).maxGasLimit, seen,
                    block.transactions, removed, state, block.gasUsed, block.fee, gasLeft);
    assert list == merged[..|list|] && list <= merged;
    PoolListIsDistinct(pool.senders, pool.rows, merged);
    receipts := ReceiptsExist(evm.m, evm.m.prepare(old(evm.state), ContextOf(net, previousBlock, block)),
                              block.transactions, net.milestone(block.number).evmSpec);
    SubsequencePrefix(block.transactions, list, merged);
    forall a ensures OfSender(block.transactions, a) <= OfSender(merged, a) {
      OfSenderPrefix(merged, |list|, a);
    }
    forall k | 0 <= k < |block.transactions| ensures FollowsOn(pool.senders, block.transactions, k) {
      BlockNonces(pool.senders, merged, block.transactions, k);
    }
    SubsequenceIsIn(block.transactions, merged);
    forall x | x in block.transactions ensures x in Pooled(pool.senders) {
      var i :| 0 <= i < |merged| && merged[i] == x;
      ListedIsPooled(pool.senders, merged, i);
    }
  }

  // What a block leaves to its proposer

  /** A proposer chooses the transactions, their order, the round, the timestamp and itself; everything else in an
      accepted block follows from these and the state it is executed on. */
  lemma AcceptedIsDetermined<S>(m: Machine<S>, net: Network, previousBlock: Tip, s: S, a: Block, b: Block)
    requires Accepts(m, net, previousBlock, s, a) && Accepts(m, net, previousBlock, s, b)
    requires a.transactions == b.transactions && a.round == b.round && a.timestamp == b.timestamp
    requires a.proposer == b.proposer
    ensures a == b
  {
    hide Replay, Bytes, DistinctHashes;
  }

  // What the EVM is asked to do

  datatype Call =
    | Prepared(context: Context)
    | Executed(tx: Tx, spec: nat)
    | Rewarded(update: Update)
    | FeeSet(update: Update)
    | ValidatorsChosen(update: Update)

  /** An EVM whose state is the list of calls it got. */
  function Recorder(gas: Tx -> nat): Machine<seq<Call>> {
    Machine(
      (s: seq<Call>, c) => s + [Prepared(c)],
      (s: seq<Call>, tx, spec) => Some((s + [Executed(tx, spec)], gas(tx))),
      (s: seq<Call>, u) => s + [Rewarded(u)],
      (s: seq<Call>, u) => s + [FeeSet(u)],
      (s: seq<Call>, u) => s + [ValidatorsChosen(u)],
      (s, root) => root,
      s => 0)
  }

  function Executions(txs: seq<Tx>, spec: nat): seq<Call> {
    seq(|txs|, i requires 0 <= i < |txs| => Executed(txs[i], spec))
  }

  lemma {:induction false} RecordedReplay(gas: Tx -> nat, s: seq<Call>, txs: seq<Tx>, spec: nat)
    ensures Replay(Recorder(gas), s, txs, spec).Some?
    ensures Replay(Recorder(gas), s, txs, spec).value.state == s + Executions(txs, spec)
  {
    if txs == [] {
    } else {
      RecordedReplay(gas, s, txs[..|txs| - 1], spec);
    }
  }

  /** The calls into the EVM for a block, in order: the context of the block, its transactions, the rewards of its own
      milestone, and where the next block starts a round, the registration fee and then the validators of the next
      block's milestone. */
  lemma CallsOfBlock(gas: Tx -> nat, net: Network, previousBlock: Tip, block: Block)
    requires ResultOf(Recorder(gas), net, previousBlock, [], block).Some?
    ensures var now, next := net.milestone(block.number), net.milestone(block.number + 1);
      ResultOf(Recorder(gas), net, previousBlock, [], block).value ==
        [Prepared(Context(number := block.number, round := block.round, gasLimit := now.maxGasLimit,
                          prevrandao := previousBlock.randaoReveal, timestamp := block.timestamp,
                          validator := block.proposer))]
        + Executions(block.transactions, now.evmSpec)
        + [Rewarded(Update(amount := now.reward, spec := now.evmSpec, timestamp := block.timestamp,
                           validator := block.proposer))]
        + (if !net.isNewRound(block.number + 1) then []
           else [FeeSet(Update(amount := next.validatorRegistrationFee, spec := next.evmSpec,
                               timestamp := block.timestamp, validator := block.proposer)),
                 ValidatorsChosen(Update(amount := next.roundValidators, spec := next.evmSpec,
                                         timestamp := block.timestamp, validator := block.proposer))])
  {
    hide Replay, Executions;
    var context := ContextOf(net, previousBlock, block);
    RecordedReplay(gas, [] + [Prepared(context)], block.transactions, net.milestone(block.number).evmSpec);
  }

  // Blocks the forger makes and the processor refuses

  const GENESIS := Tip(0, 0, 0, 0)

  const SMALL_BLOCKS := Network(_ => Milestone(100_000, 500, 1, 0, 0, 0, 0), _ => false, 460)

  const VERSION_TWO := Network(_ => Milestone(100_000, 5000, 2, 0, 0, 0, 0), _ => false, 460)

  const FLAT_GAS: Machine<int> := Machine(
    (s, c) => s, (s, tx: Tx, spec) => if tx.gasLimit < 21_000 then None else Some((s, 21_000)), (s, u) => s,
    (s, u) => s, (s, u) => s, (s, root) => root, s => 0)

  const LARGE_TX := Tx(1, 2, 0, 5, 21_000, 0, 100, 0)

  lemma HasFirst(txs: seq<Tx>)
    ensures txs == [] || txs[0] in txs
  {
  }

  lemma NeverFails(txs: seq<Tx>)
    ensures !Fails(FLAT_GAS, 0, txs, LARGE_TX, 0)
  {
  }

  lemma AtMostOne(txs: seq<Tx>, seen: seq<Tx>)
    requires Subsequence(txs, seen) && seen <= [LARGE_TX]
    ensures txs == [] || (txs == [LARGE_TX] && seen == [LARGE_TX])
  {
    if seen != [] {
      assert seen == [LARGE_TX] && seen[..0] == [];
    }
  }

  /** Nothing stops the forger from packing the transaction. */
  lemma PacksTheOne(txs: seq<Tx>, seen: seq<Tx>, removed: seq<Tx>, state: int, gasUsed: nat, fee: nat, gasLeft: int)
    requires Collated(FLAT_GAS, 0, 0, 100_000, seen, txs, removed, state, gasUsed, fee, gasLeft)
    requires seen <= [LARGE_TX] && (seen == [LARGE_TX] || gasLeft < 21_000)
    ensures txs == [LARGE_TX]
  {
    AtMostOne(txs, seen);
    assert Replay(FLAT_GAS, 0, txs, 0) == Some(Totals(state, gasUsed, fee));
    if txs == [] {
      assert gasUsed == 0;
      NeverFails(txs);
      HasFirst(removed);
      assert SendersOf(removed) == {};
      assert gasLeft >= 0;
      assert seen == [LARGE_TX];
      OfSenderAppend([], LARGE_TX, 2);
      assert [] + [LARGE_TX] == [LARGE_TX];
    }
  }

  /** One transaction that executes and fits by gas is packed, and makes a block that is too large for its network. */
  method ForgeOversized() returns (block: Block)
    ensures block.transactions == [LARGE_TX] && !Accepts(FLAT_GAS, SMALL_BLOCKS, GENESIS, 0, block)
  {
    var evm := new Evm(FLAT_GAS, 0);
    ghost var seen, removed, state, gasLeft;
    block, seen, removed, state, gasLeft := ForgeBlock(SMALL_BLOCKS, GENESIS, 3, 0, 0, evm, [LARGE_TX], _ => 0, 0);
    PacksTheOne(block.transactions, seen, removed, state, block.gasUsed, block.fee, gasLeft);
    BytesAppend([], LARGE_TX);
  }

  /** The version is not looked at either. */
  method ForgeForVersionTwo() returns (block: Block)
    ensures block.version == 1 && !Accepts(FLAT_GAS, VERSION_TWO, GENESIS, 0, block)
  {
    var evm := new Evm(FLAT_GAS, 0);
    ghost var seen, removed, state, gasLeft;
    block, seen, removed, state, gasLeft := ForgeBlock(VERSION_TWO, GENESIS, 3, 0, 0, evm, [], _ => 0, 0);
  }
}
