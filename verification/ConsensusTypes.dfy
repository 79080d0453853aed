/** The values the consensus works on: votes, proposals, round tallies, memory and durable records. */
module ConsensusTypes {
  import opened Wrappers
  import opened Quorum

  /** Block hashes are only ever compared for equality. */
  type Hash = nat

  datatype Step = Propose | Prevote | Precommit

  datatype MessageType = PrevoteMessage | PrecommitMessage

  /** A signed prevote or precommit. The signature covers the hash of the previous block, so a vote belongs to one
      chain prefix (the hashes of all blocks before the one voted on), not just to one height. */
  datatype Vote = Vote(kind: MessageType, prefix: seq<Hash>, round: nat, value: Option<Hash>, validator: nat)

  /** The proof carries the flags of the validators whose aggregated prevotes it claims to hold. */
  datatype Proposal = Proposal(blockNumber: nat, round: nat, hash: Hash, validRound: Option<nat>,
                               lockProof: Option<seq<bool>>)

  /** What a round state holds: at most one proposal, its processing verdict, and one vote per validator and type. */
  datatype RoundView = RoundView(proposal: Option<Proposal>, deserialized: bool, result: Option<bool>,
                                 prevotes: map<nat, Option<Hash>>, precommits: map<nat, Option<Hash>>)

  const EMPTY_ROUND := RoundView(None, false, None, map[], map[])

  /** A locked or valid value: the round state it refers to, and the hash proposed there. */
  datatype Lock = Lock(round: nat, hash: Hash)

  /** A vote that was decided and whose position is on disk, but which is not signed by every validator yet. */
  datatype Ballot = Ballot(kind: MessageType, value: Option<Hash>)

  datatype StateData = StateData(blockNumber: nat, round: nat, step: Step, lockedRound: Option<nat>,
                                 validRound: Option<nat>)

  datatype Slot = Slot(round: nat, validator: nat, kind: MessageType)

  /** The consensus store as it survives a crash. */
  datatype Disk = Disk(state: Option<StateData>, proposals: map<nat, Proposal>, messages: map<Slot, Vote>)

  const EMPTY_DISK := Disk(None, map[], map[])

  /** What a crash loses. `storeBlock` is the storage service's own block number, read back at start. */
  datatype Memory = Memory(round: nat, step: Step, locked: Option<Lock>, valid: Option<Lock>,
                           didMajorityPrevote: bool, didMajorityPrecommit: bool,
                           rounds: map<nat, RoundView>, storeBlock: nat, pending: Option<Ballot>)

  /** A running node: the committed chain (hashes after genesis), the consensus store, and the memory. */
  datatype Local = Local(chain: seq<Hash>, disk: Disk, mem: Memory)

  function Height(chain: seq<Hash>): nat {
    |chain| + 1
  }

  function StepOrder(step: Step): nat {
    match step
    case Propose => 0
    case Prevote => 1
    case Precommit => 2
  }

  function StepOf(kind: MessageType): Step {
    match kind
    case PrevoteMessage => Prevote
    case PrecommitMessage => Precommit
  }

  /** The lexicographic order of (round, step) positions within one height. */
  predicate NotAfter(round: nat, step: Step, round': nat, step': Step) {
    round < round' || (round == round' && StepOrder(step) <= StepOrder(step'))
  }

  function GetRound(rounds: map<nat, RoundView>, round: nat): RoundView {
    if round in rounds then rounds[round] else EMPTY_ROUND
  }

  function RoundOf(lock: Option<Lock>): Option<nat> {
    if lock.Some? then Some(lock.value.round) else None
  }

  function Voters(votes: map<nat, Option<Hash>>, value: Option<Hash>): set<nat> {
    set i | i in votes && votes[i] == value
  }

  predicate HasMajorityFor(votes: map<nat, Option<Hash>>, value: Option<Hash>, n: nat) {
    IsMajority(|Voters(votes, value)|, n)
  }

  predicate HasMajorityPrevotes(view: RoundView, n: nat) {
    view.proposal.Some? && view.deserialized && HasMajorityFor(view.prevotes, Some(view.proposal.value.hash), n)
  }

  predicate HasMajorityPrevotesNull(view: RoundView, n: nat) {
    HasMajorityFor(view.prevotes, None, n)
  }

  predicate HasMajorityPrecommits(view: RoundView, n: nat) {
    view.proposal.Some? && view.deserialized && HasMajorityFor(view.precommits, Some(view.proposal.value.hash), n)
  }

  predicate HasMinorityPrevotesOrPrecommits(view: RoundView, n: nat) {
    IsMinority(|view.prevotes|, n) || IsMinority(|view.precommits|, n)
  }
}
