/** The rules of `Consensus` as functions on the local state of a node. A handler whose guard fails changes nothing.
    Every position is written to the store before the vote of that position is cast. */
module ConsensusRules {
  import opened Wrappers
  import opened ConsensusTypes

  function StateOf(s: Local): StateData {
    StateData(Height(s.chain), s.mem.round, s.mem.step, RoundOf(s.mem.locked), RoundOf(s.mem.valid))
  }

  /** The first write of a higher block number drops every record of the block before it. */
  function Prepared(disk: Disk, storeBlock: nat, blockNumber: nat): Disk {
    if blockNumber > storeBlock then EMPTY_DISK else disk
  }

  function Max(a: nat, b: nat): nat {
    if a < b then b else a
  }

  function SaveState(s: Local): Local {
    var height := Height(s.chain);
    s.(disk := Prepared(s.disk, s.mem.storeBlock, height).(state := Some(StateOf(s))),
       mem := s.mem.(storeBlock := Max(s.mem.storeBlock, height)))
  }

  function SaveMessage(s: Local, vote: Vote): Local {
    var height := Height(s.chain);
    var disk := Prepared(s.disk, s.mem.storeBlock, height);
    s.(disk := disk.(messages := disk.messages[Slot(vote.round, vote.validator, vote.kind) := vote]),
       mem := s.mem.(storeBlock := Max(s.mem.storeBlock, height)))
  }

  function SaveProposal(s: Local, proposal: Proposal): Local {
    var height := Height(s.chain);
    var disk := Prepared(s.disk, s.mem.storeBlock, height);
    s.(disk := disk.(proposals := disk.proposals[proposal.round := proposal]),
       mem := s.mem.(storeBlock := Max(s.mem.storeBlock, height)))
  }

  function SetRound(s: Local, round: nat, view: RoundView): Local {
    s.(mem := s.mem.(rounds := s.mem.rounds[round := view]))
  }

  function AddMessage(s: Local, vote: Vote): Local {
    var view := GetRound(s.mem.rounds, vote.round);
    SetRound(s, vote.round,
             match vote.kind
             case PrevoteMessage => view.(prevotes := view.prevotes[vote.validator := vote.value])
             case PrecommitMessage => view.(precommits := view.precommits[vote.validator := vote.value]))
  }

  predicate HasMessage(view: RoundView, vote: Vote) {
    match vote.kind
    case PrevoteMessage => vote.validator in view.prevotes
    case PrecommitMessage => vote.validator in view.precommits
  }

  function AddProposal(s: Local, proposal: Proposal): Local {
    SetRound(s, proposal.round, GetRound(s.mem.rounds, proposal.round).(proposal := Some(proposal)))
  }

  /** `readable` says whether the payload deserializes, `accepted` whether lock proof and block were found valid. */
  function ProcessProposal(s: Local, round: nat, readable: bool, accepted: bool): Local {
    var view := GetRound(s.mem.rounds, round);
    if view.result.None? && view.proposal.Some? then
      SetRound(s, round, view.(deserialized := view.deserialized || readable, result := Some(readable && accepted)))
    else s
  }

  function Cast(s: Local, kind: MessageType, value: Option<Hash>): Local {
    s.(mem := s.mem.(pending := Some(Ballot(kind, value))))
  }

  function Enter(s: Local, step: Step): Local {
    SaveState(s.(mem := s.mem.(step := step)))
  }

  /** Round 0 is the position the bootstrapper assumes without a stored state, so it is not written. */
  function StartRound(s: Local, round: nat): Local {
    var t := s.(mem := s.mem.(round := round, step := Propose, didMajorityPrevote := false,
                              didMajorityPrecommit := false));
    if round > 0 then SaveState(t) else t
  }

  predicate HasFreshProposal(s: Local, round: nat) {
    var view := GetRound(s.mem.rounds, round);
    s.mem.step.Propose? && round == s.mem.round && view.proposal.Some? && view.proposal.value.validRound.None? &&
    view.result.Some?
  }

  function OnProposal(s: Local, round: nat, fromFuture: bool): Local {
    var view := GetRound(s.mem.rounds, round);
    if !HasFreshProposal(s, round) then s
    else
      Cast(Enter(s, Prevote), PrevoteMessage,
           if s.mem.locked.Some? || fromFuture || !view.result.value then None else Some(view.proposal.value.hash))
  }

  predicate AllowedByLock(locked: Option<Lock>, validRound: nat, hash: Hash) {
    locked.None? || locked.value.round <= validRound || locked.value.hash == hash
  }

  predicate HasLockedProposal(s: Local, round: nat) {
    var view := GetRound(s.mem.rounds, round);
    s.mem.step.Propose? && round == s.mem.round && view.proposal.Some? && view.proposal.value.lockProof.Some? &&
    view.proposal.value.validRound.Some? && view.proposal.value.validRound.value < s.mem.round && view.result.Some?
  }

  function OnProposalLocked(s: Local, round: nat): Local {
    var view := GetRound(s.mem.rounds, round);
    if !HasLockedProposal(s, round) then s
    else
      var p := view.proposal.value;
      Cast(Enter(s, Prevote), PrevoteMessage,
           if AllowedByLock(s.mem.locked, p.validRound.value, p.hash) && view.result.value then Some(p.hash) else None)
  }

  predicate IsPrevoted(s: Local, round: nat, n: nat) {
    var view := GetRound(s.mem.rounds, round);
    HasMajorityPrevotes(view, n) && !s.mem.didMajorityPrevote && !s.mem.step.Propose? && round == s.mem.round &&
    view.result == Some(true)
  }

  function OnMajorityPrevote(s: Local, round: nat, n: nat): Local {
    var view := GetRound(s.mem.rounds, round);
    if !IsPrevoted(s, round, n) then s
    else
      var value := Some(Lock(round, view.proposal.value.hash));
      if s.mem.step.Prevote? then
        var t := s.(mem := s.mem.(didMajorityPrevote := true, locked := value, valid := value));
        Cast(Enter(t, Precommit), PrecommitMessage, Some(view.proposal.value.hash))
      else
        SaveState(s.(mem := s.mem.(didMajorityPrevote := true, valid := value)))
  }

  predicate IsPrevotedNull(s: Local, round: nat, n: nat) {
    HasMajorityPrevotesNull(GetRound(s.mem.rounds, round), n) && s.mem.step.Prevote? && round == s.mem.round
  }

  function OnMajorityPrevoteNull(s: Local, round: nat, n: nat): Local {
    if IsPrevotedNull(s, round, n) then
      Cast(Enter(s, Precommit), PrecommitMessage, None)
    else s
  }

  function Commit(s: Local, hash: Hash): Local {
    StartRound(Local(s.chain + [hash], s.disk, s.mem.(rounds := map[], locked := None, valid := None)), 0)
  }

  predicate IsPrecommitted(s: Local, round: nat, n: nat) {
    HasMajorityPrecommits(GetRound(s.mem.rounds, round), n) && !s.mem.didMajorityPrecommit
  }

  function OnMajorityPrecommit(s: Local, round: nat, n: nat): Local {
    var view := GetRound(s.mem.rounds, round);
    if !IsPrecommitted(s, round, n) then s
    else if view.result != Some(true) then s.(mem := s.mem.(didMajorityPrecommit := true))
    else Commit(s, view.proposal.value.hash)
  }

  /** A downloaded commit: `accepted` is the verdict of processing its block. */
  function OnCommitState(s: Local, hash: Hash, accepted: bool): Local {
    if accepted then Commit(s, hash) else s
  }

  predicate IsAhead(s: Local, round: nat, n: nat) {
    HasMinorityPrevotesOrPrecommits(GetRound(s.mem.rounds, round), n) && round > s.mem.round
  }

  function OnMinorityWithHigherRound(s: Local, round: nat, n: nat): Local {
    if IsAhead(s, round, n) then StartRound(s, round) else s
  }

  predicate IsProcessed(s: Local, round: nat) {
    GetRound(s.mem.rounds, round).proposal.Some? ==> GetRound(s.mem.rounds, round).result.Some?
  }

  /** No rule is left to fire on this round state. */
  predicate Quiet(s: Local, round: nat, n: nat) {
    && IsProcessed(s, round) && !HasFreshProposal(s, round) && !HasLockedProposal(s, round)
    && !IsPrevoted(s, round, n) && !IsPrevotedNull(s, round, n)
    && !IsPrecommitted(s, round, n) && !IsAhead(s, round, n)
  }

  function OnTimeoutPropose(s: Local, blockNumber: nat, round: nat): Local {
    if s.mem.step.Propose? && Height(s.chain) == blockNumber && s.mem.round == round then
      Cast(Enter(s, Prevote), PrevoteMessage, None)
    else s
  }

  function OnTimeoutPrevote(s: Local, blockNumber: nat, round: nat): Local {
    if s.mem.step.Prevote? && Height(s.chain) == blockNumber && s.mem.round == round then
      Cast(Enter(s, Precommit), PrecommitMessage, None)
    else s
  }

  function OnTimeoutPrecommit(s: Local, blockNumber: nat, round: nat): Local {
    if Height(s.chain) == blockNumber && s.mem.round == round then StartRound(s, s.mem.round + 1) else s
  }

  // Bootstrapping

  function InitialState(blockNumber: nat): StateData {
    StateData(blockNumber, 0, Propose, None, None)
  }

  /** The position a restart at this chain and store resumes from. */
  function Recorded(chain: seq<Hash>, disk: Disk): StateData {
    if disk.state.Some? && disk.state.value.blockNumber == Height(chain) then disk.state.value
    else InitialState(Height(chain))
  }

  function StoredValidators(messages: map<Slot, Vote>): set<nat> {
    set slot | slot in messages :: slot.validator
  }

  predicate IsStored(messages: map<Slot, Vote>, blockNumber: nat, slot: Slot) {
    slot in messages && Height(messages[slot].prefix) == blockNumber
  }

  function StoredVotes(messages: map<Slot, Vote>, blockNumber: nat, round: nat, kind: MessageType)
    : map<nat, Option<Hash>> {
    map i | i in StoredValidators(messages) && IsStored(messages, blockNumber, Slot(round, i, kind))
          :: messages[Slot(round, i, kind)].value
  }

  function StoredRound(disk: Disk, blockNumber: nat, round: nat): RoundView {
    RoundView(if round in disk.proposals && disk.proposals[round].blockNumber == blockNumber
              then Some(disk.proposals[round]) else None,
              false, None,
              StoredVotes(disk.messages, blockNumber, round, PrevoteMessage),
              StoredVotes(disk.messages, blockNumber, round, PrecommitMessage))
  }

  function StoredRounds(disk: Disk): set<nat> {
    (set slot | slot in disk.messages :: slot.round) + disk.proposals.Keys
  }

  function LoadedRounds(disk: Disk, blockNumber: nat): map<nat, RoundView> {
    map round | round in StoredRounds(disk) :: StoredRound(disk, blockNumber, round)
  }

  /** The round state a stored lock or valid round refers to: its proposal and its +2/3 prevotes must be stored. */
  function Proven(rounds: map<nat, RoundView>, round: nat, n: nat): Result<Lock> {
    var view := GetRound(rounds, round);
    if view.proposal.None? then Err("the proposal is not stored")
    else if !HasMajorityPrevotes(view.(deserialized := true), n) then Err("the +2/3 prevotes are not stored")
    else Ok(Lock(round, view.proposal.value.hash))
  }

  function ProvenIfStored(rounds: map<nat, RoundView>, round: Option<nat>, n: nat): Result<Option<Lock>> {
    if round.None? then Ok(None)
    else
      match Proven(rounds, round.value, n)
      case Ok(lock) => Ok(Some(lock))
      case Err(e) => Err(e)
  }

  function Deserialized(rounds: map<nat, RoundView>, value: Option<Lock>): map<nat, RoundView> {
    if value.None? then rounds
    else rounds[value.value.round := GetRound(rounds, value.value.round).(deserialized := true)]
  }

  /** Restores position, valid and locked value from the store, or refuses to start on an inconsistent one. */
  function Bootstrap(chain: seq<Hash>, disk: Disk, n: nat): Result<Local> {
    var state := Recorded(chain, disk);
    var rounds := LoadedRounds(disk, Height(chain));
    match ProvenIfStored(rounds, state.validRound, n)
    case Err(e) => Err(e)
    case Ok(valid) =>
      match ProvenIfStored(rounds, state.lockedRound, n)
      case Err(e) => Err(e)
      case Ok(locked) =>
        var storeBlock := if disk.state.Some? then disk.state.value.blockNumber else 0;
        Ok(Local(chain, disk, Memory(state.round, state.step, locked, valid, false, false,
                                     Deserialized(Deserialized(rounds, valid), locked), storeBlock, None)))
  }
}
