/** `Bootstrapper`: the loops that rebuild the round states from the stored records, and the restored state. */
module Bootstrapping {
  import opened Wrappers
  import opened ConsensusTypes
  import opened ConsensusRules

  function SlotOf(v: Vote): Slot {
    Slot(v.round, v.validator, v.kind)
  }

  ghost function ProposalsIn(records: seq<Proposal>): map<nat, Proposal> {
    if records == [] then map[]
    else
      var last := records[|records| - 1];
      ProposalsIn(records[..|records| - 1])[last.round := last]
  }

  ghost function MessagesIn(records: seq<Vote>): map<Slot, Vote> {
    if records == [] then map[]
    else
      var last := records[|records| - 1];
      MessagesIn(records[..|records| - 1])[SlotOf(last) := last]
  }

  /** The store yields every record of a key once, in some order. */
  ghost predicate Lists(disk: Disk, proposals: seq<Proposal>, messages: seq<Vote>) {
    && ProposalsIn(proposals) == disk.proposals && MessagesIn(messages) == disk.messages
    && (forall i, j :: 0 <= i < j < |proposals| ==> proposals[i].round != proposals[j].round)
    && (forall i, j :: 0 <= i < j < |messages| ==> SlotOf(messages[i]) != SlotOf(messages[j]))
  }

  lemma {:induction false} ProposalListed(records: seq<Proposal>, round: nat)
    ensures round in ProposalsIn(records) <==> exists i :: 0 <= i < |records| && records[i].round == round
  {
    if records == [] {
    } else {
      var front := records[..|records| - 1];
      ProposalListed(front, round);
      if round in ProposalsIn(front) {
        var i :| 0 <= i < |front| && front[i].round == round;
        assert records[i].round == round;
      }
    }
  }

  lemma {:induction false} MessageListed(records: seq<Vote>, slot: Slot)
    ensures slot in MessagesIn(records) <==> exists i :: 0 <= i < |records| && SlotOf(records[i]) == slot
    ensures slot in MessagesIn(records) ==> SlotOf(MessagesIn(records)[slot]) == slot
  {
    if records == [] {
    } else {
      var front := records[..|records| - 1];
      MessageListed(front, slot);
      if slot in MessagesIn(front) {
        var i :| 0 <= i < |front| && SlotOf(front[i]) == slot;
        assert SlotOf(records[i]) == slot;
      }
    }
  }

  lemma StoredAt(messages: map<Slot, Vote>, blockNumber: nat, round: nat, kind: MessageType, i: nat)
    ensures i in StoredVotes(messages, blockNumber, round, kind) <==>
            IsStored(messages, blockNumber, Slot(round, i, kind))
  {
    if IsStored(messages, blockNumber, Slot(round, i, kind)) {
      assert Slot(round, i, kind).validator in StoredValidators(messages);
    }
  }

  /** Adding one message to the stored ones changes the tally of its own round, type and block only. */
  lemma OneMoreMessage(messages: map<Slot, Vote>, v: Vote, blockNumber: nat, round: nat, kind: MessageType)
    requires SlotOf(v) !in messages
    ensures StoredVotes(messages[SlotOf(v) := v], blockNumber, round, kind) ==
      var before := StoredVotes(messages, blockNumber, round, kind);
      if v.round == round && v.kind == kind && Height(v.prefix) == blockNumber then before[v.validator := v.value]
      else before
  {
    var more := messages[SlotOf(v) := v];
    forall i: nat
      ensures i in StoredVotes(messages, blockNumber, round, kind) <==>
              IsStored(messages, blockNumber, Slot(round, i, kind))
      ensures i in StoredVotes(more, blockNumber, round, kind) <==> IsStored(more, blockNumber, Slot(round, i, kind))
    {
      StoredAt(messages, blockNumber, round, kind, i);
      StoredAt(more, blockNumber, round, kind, i);
    }
  }

  function Tallied(view: RoundView, v: Vote, blockNumber: nat, round: nat): RoundView {
    if v.round != round || Height(v.prefix) != blockNumber then view
    else
      match v.kind
      case PrevoteMessage => view.(prevotes := view.prevotes[v.validator := v.value])
      case PrecommitMessage => view.(precommits := view.precommits[v.validator := v.value])
  }

  function Proposed(view: RoundView, p: Proposal, blockNumber: nat, round: nat): RoundView {
    if p.round == round && p.blockNumber == blockNumber then view.(proposal := Some(p)) else view
  }

  ghost function RoundOfProposals(proposals: seq<Proposal>, blockNumber: nat, round: nat): RoundView {
    if proposals == [] then EMPTY_ROUND
    else
      Proposed(RoundOfProposals(proposals[..|proposals| - 1], blockNumber, round), proposals[|proposals| - 1],
               blockNumber, round)
  }

  ghost function RoundOfRecords(proposals: seq<Proposal>, messages: seq<Vote>, blockNumber: nat, round: nat)
    : RoundView
  {
    if messages == [] then RoundOfProposals(proposals, blockNumber, round)
    else
      Tallied(RoundOfRecords(proposals, messages[..|messages| - 1], blockNumber, round), messages[|messages| - 1],
              blockNumber, round)
  }

  lemma NoVotesStored(blockNumber: nat, round: nat, kind: MessageType)
    ensures StoredVotes(map[], blockNumber, round, kind) == map[]
  {
  }

  lemma {:induction false} ProposalsAreStored(proposals: seq<Proposal>, blockNumber: nat, round: nat)
    requires forall i, j :: 0 <= i < j < |proposals| ==> proposals[i].round != proposals[j].round
    ensures RoundOfProposals(proposals, blockNumber, round) ==
            StoredRound(Disk(None, ProposalsIn(proposals), map[]), blockNumber, round)
  {
    hide StoredVotes;
    NoVotesStored(blockNumber, round, PrevoteMessage);
    NoVotesStored(blockNumber, round, PrecommitMessage);
    if proposals == [] {
    } else {
      var front, last := proposals[..|proposals| - 1], proposals[|proposals| - 1];
      ProposalsAreStored(front, blockNumber, round);
      ProposalListed(front, last.round);
    }
  }

  /** Adding the records one by one gives exactly the round the store holds. */
  lemma {:induction false} RecordsAreStored(proposals: seq<Proposal>, messages: seq<Vote>, blockNumber: nat, round: nat)
    requires Lists(Disk(None, ProposalsIn(proposals), MessagesIn(messages)), proposals, messages)
    ensures RoundOfRecords(proposals, messages, blockNumber, round) ==
            StoredRound(Disk(None, ProposalsIn(proposals), MessagesIn(messages)), blockNumber, round)
    decreases |messages|
  {
    hide StoredVotes;
    if messages == [] {
      ProposalsAreStored(proposals, blockNumber, round);
    } else {
      var front, last := messages[..|messages| - 1], messages[|messages| - 1];
      RecordsAreStored(proposals, front, blockNumber, round);
      MessageListed(front, SlotOf(last));
      OneMoreMessage(MessagesIn(front), last, blockNumber, round, PrevoteMessage);
      OneMoreMessage(MessagesIn(front), last, blockNumber, round, PrecommitMessage);
    }
  }

  lemma {:induction false} NoProposalYet(proposals: seq<Proposal>, blockNumber: nat, round: nat)
    requires forall i :: 0 <= i < |proposals| ==> proposals[i].round != round
    ensures RoundOfProposals(proposals, blockNumber, round).proposal.None?
  {
    if proposals == [] {
    } else {
      NoProposalYet(proposals[..|proposals| - 1], blockNumber, round);
    }
  }

  lemma {:induction false} OnlyProposals(proposals: seq<Proposal>, blockNumber: nat, round: nat)
    ensures var view := RoundOfProposals(proposals, blockNumber, round);
      view.prevotes == map[] && view.precommits == map[]
  {
    if proposals == [] {
    } else {
      OnlyProposals(proposals[..|proposals| - 1], blockNumber, round);
    }
  }

  lemma {:induction false} NoMessageYet(proposals: seq<Proposal>, messages: seq<Vote>, blockNumber: nat, v: Vote)
    requires forall i :: 0 <= i < |messages| ==> SlotOf(messages[i]) != SlotOf(v)
    ensures !HasMessage(RoundOfRecords(proposals, messages, blockNumber, v.round), v)
    decreases |messages|
  {
    if messages == [] {
      OnlyProposals(proposals, blockNumber, v.round);
    } else {
      NoMessageYet(proposals, messages[..|messages| - 1], blockNumber, v);
    }
  }

  method LoadProposals(blockNumber: nat, proposals: seq<Proposal>) returns (r: Result<map<nat, RoundView>>)
    requires forall i, j :: 0 <= i < j < |proposals| ==> proposals[i].round != proposals[j].round
    ensures r.Ok? && forall k :: GetRound(r.value, k) == RoundOfProposals(proposals, blockNumber, k)
  {
    var rounds: map<nat, RoundView> := map[];
    for i := 0 to |proposals|
      invariant forall k :: GetRound(rounds, k) == RoundOfProposals(proposals[..i], blockNumber, k)
    {
      var p := proposals[i];
      assert proposals[..i + 1][..i] == proposals[..i];
      NoProposalYet(proposals[..i], blockNumber, p.round);
      if p.blockNumber == blockNumber {
        var view := GetRound(rounds, p.round);
        if view.proposal.Some? {
          return Err("Proposal already exists.");
        }
        rounds := rounds[p.round := view.(proposal := Some(p))];
      }
    }
    assert proposals[..|proposals|] == proposals;
    r := Ok(rounds);
  }

  method LoadMessages(blockNumber: nat, ghost proposals: seq<Proposal>, messages: seq<Vote>,
                      loaded: map<nat, RoundView>) returns (r: Result<map<nat, RoundView>>)
    requires forall i, j :: 0 <= i < j < |messages| ==> SlotOf(messages[i]) != SlotOf(messages[j])
    requires forall k :: GetRound(loaded, k) == RoundOfProposals(proposals, blockNumber, k)
    ensures r.Ok? && forall k :: GetRound(r.value, k) == RoundOfRecords(proposals, messages, blockNumber, k)
  {
    var rounds: map<nat, RoundView> := loaded;
    for i := 0 to |messages|
      invariant forall k :: GetRound(rounds, k) == RoundOfRecords(proposals, messages[..i], blockNumber, k)
    {
      var v := messages[i];
      assert messages[..i + 1][..i] == messages[..i];
      NoMessageYet(proposals, messages[..i], blockNumber, v);
      if Height(v.prefix) == blockNumber {
        var view := GetRound(rounds, v.round);
        if HasMessage(view, v) {
          return Err("Message already exists.");
        }
        rounds := rounds[v.round := Tallied(view, v, blockNumber, v.round)];
      }
    }
    assert messages[..|messages|] == messages;
    r := Ok(rounds);
  }

  /** Rebuilds exactly the tallies of this block that the store holds; records of another block are dropped. */
  method LoadRounds(blockNumber: nat, proposals: seq<Proposal>, messages: seq<Vote>, ghost disk: Disk)
    returns (r: Result<map<nat, RoundView>>)
    requires Lists(disk, proposals, messages)
    ensures r.Ok? && forall k :: GetRound(r.value, k) == StoredRound(disk, blockNumber, k)
  {
    r := LoadProposals(blockNumber, proposals);
    r := LoadMessages(blockNumber, proposals, messages, r.value);
    forall k: nat ensures RoundOfRecords(proposals, messages, blockNumber, k) == StoredRound(disk, blockNumber, k) {
      RecordsAreStored(proposals, messages, blockNumber, k);
    }
  }

  lemma LoadedAt(disk: Disk, blockNumber: nat, round: nat)
    ensures GetRound(LoadedRounds(disk, blockNumber), round) == StoredRound(disk, blockNumber, round)
  {
    if round !in StoredRounds(disk) {
      forall slot | slot in disk.messages ensures slot.round != round {
        assert slot.round in StoredRounds(disk);
      }
      assert StoredVotes(disk.messages, blockNumber, round, PrevoteMessage) == map[];
      assert StoredVotes(disk.messages, blockNumber, round, PrecommitMessage) == map[];
    }
  }

  method GetProvenRoundState(rounds: map<nat, RoundView>, round: nat, n: nat)
    returns (r: Result<Lock>, after: map<nat, RoundView>)
    ensures r == Proven(rounds, round, n)
    ensures r.Ok? ==> after == Deserialized(rounds, Some(r.value))
  {
    after := rounds;
    var view := GetRound(rounds, round);
    if view.proposal.None? {
      return Err("the proposal is not stored"), after;
    }
    view := view.(deserialized := true);
    after := after[round := view];
    if !HasMajorityPrevotes(view, n) {
      return Err("the +2/3 prevotes are not stored"), after;
    }
    r := Ok(Lock(round, view.proposal.value.hash));
  }

  ghost predicate SameNode(s: Local, t: Local) {
    && s == t.(mem := t.mem.(rounds := s.mem.rounds))
    && forall k :: GetRound(s.mem.rounds, k) == GetRound(t.mem.rounds, k)
  }

  method RestoreValue(rounds: map<nat, RoundView>, round: Option<nat>, n: nat)
    returns (r: Result<Option<Lock>>, after: map<nat, RoundView>)
    ensures r == ProvenIfStored(rounds, round, n)
    ensures r.Ok? ==> after == Deserialized(rounds, r.value)
  {
    if round.None? {
      return Ok(None), rounds;
    }
    var lock;
    lock, after := GetProvenRoundState(rounds, round.value, n);
    r := match lock case Ok(l) => Ok(Some(l)) case Err(e) => Err(e);
  }

  lemma LoadedIsStored(disk: Disk, blockNumber: nat, rounds: map<nat, RoundView>)
    requires forall k :: GetRound(rounds, k) == StoredRound(disk, blockNumber, k)
    ensures forall k :: GetRound(rounds, k) == GetRound(LoadedRounds(disk, blockNumber), k)
  {
    forall k: nat ensures GetRound(rounds, k) == GetRound(LoadedRounds(disk, blockNumber), k) {
      LoadedAt(disk, blockNumber, k);
    }
  }

  lemma DeserializedSame(a: map<nat, RoundView>, b: map<nat, RoundView>, value: Option<Lock>)
    requires forall k :: GetRound(a, k) == GetRound(b, k)
    ensures forall k :: GetRound(Deserialized(a, value), k) == GetRound(Deserialized(b, value), k)
  {
    if value.Some? {
      assert GetRound(a, value.value.round) == GetRound(b, value.value.round);
    }
    forall k: nat ensures GetRound(Deserialized(a, value), k) == GetRound(Deserialized(b, value), k) {
      assert GetRound(a, k) == GetRound(b, k);
    }
  }

  lemma ProvenSame(a: map<nat, RoundView>, b: map<nat, RoundView>, round: Option<nat>, value: Option<Lock>, n: nat)
    requires forall k :: GetRound(a, k) == GetRound(b, k)
    ensures ProvenIfStored(a, round, n) == ProvenIfStored(b, round, n)
    ensures ProvenIfStored(Deserialized(a, value), round, n) == ProvenIfStored(a, round, n)
  {
  }

  /** Restores the node the store describes, or refuses. A record ahead of the chain is dropped with the whole store. */
  method Start(chain: seq<Hash>, disk: Disk, proposals: seq<Proposal>, messages: seq<Vote>, n: nat)
    returns (r: Result<Local>)
    requires Lists(disk, proposals, messages)
    ensures disk.state.None? || disk.state.value.blockNumber <= Height(chain) ==>
      match Bootstrap(chain, disk, n)
      case Err(_) => r.Err?
      case Ok(s) => r.Ok? && SameNode(r.value, s)
    ensures disk.state.Some? && disk.state.value.blockNumber > Height(chain) ==>
      r.Ok? && SameNode(r.value, Local(chain, EMPTY_DISK, Memory(0, Step.Propose, None, None, false, false,
                                                                 LoadedRounds(disk, Height(chain)), 0, None)))
  {
    var loaded := LoadRounds(Height(chain), proposals, messages, disk);
    var rounds: map<nat, RoundView> := loaded.value;
    LoadedIsStored(disk, Height(chain), rounds);
    ghost var spec := LoadedRounds(disk, Height(chain));
    if disk.state.Some? && disk.state.value.blockNumber == Height(chain) {
      var state := disk.state.value;
      var valid, after := RestoreValue(rounds, state.validRound, n);
      ProvenSame(rounds, spec, state.validRound, None, n);
      if valid.Err? {
        return Err(valid.error);
      }
      var locked, done := RestoreValue(after, state.lockedRound, n);
      ProvenSame(rounds, spec, state.lockedRound, valid.value, n);
      if locked.Err? {
        return Err(locked.error);
      }
      DeserializedSame(rounds, spec, valid.value);
      DeserializedSame(after, Deserialized(spec, valid.value), locked.value);
      return Ok(Local(chain, disk, Memory(state.round, state.step, locked.value, valid.value, false, false, done,
                                          state.blockNumber, None)));
    }
    if disk.state.Some? && disk.state.value.blockNumber > Height(chain) {
      return Ok(Local(chain, EMPTY_DISK, Memory(0, Step.Propose, None, None, false, false, rounds, 0, None)));
    }
    r := Ok(Local(chain, disk, Memory(0, Step.Propose, None, None, false, false, rounds,
                                      if disk.state.Some? then disk.state.value.blockNumber else 0, None)));
  }
}
