/** A network of nodes running the consensus rules, with crashes, restarts and Byzantine validators. A run is any
    sequence of events; an event that is not enabled changes nothing. */
module Network {
  import opened Wrappers
  import opened Quorum
  import opened ConsensusTypes
  import opened ConsensusRules

  /** For every chain prefix: how many round validators decide the next block, and which correct node holds the key
      of each of them. A validator without a host is Byzantine. */
  datatype Config = Config(nodes: nat, size: seq<Hash> -> nat, host: (seq<Hash>, nat) -> Option<nat>)

  ghost function Byzantine(cfg: Config, prefix: seq<Hash>): set<nat> {
    set i: nat | 0 <= i < cfg.size(prefix) && cfg.host(prefix, i).None?
  }

  /** Fewer than a third of the validators of every prefix are Byzantine. */
  ghost predicate Resilient(cfg: Config) {
    forall prefix :: 3 * |Byzantine(cfg, prefix)| < cfg.size(prefix)
  }

  datatype Node = Node(chain: seq<Hash>, disk: Disk, mem: Option<Memory>)

  datatype Global = Global(nodes: seq<Node>, sent: set<Vote>)

  datatype Action =
    | ReceiveMessage(vote: Vote)
    | StoreMessage(vote: Vote)
    | ReceiveProposal(proposal: Proposal)
    | StoreProposal(proposal: Proposal)
    | Process(round: nat, readable: bool, accepted: bool)
    | Fresh(round: nat, fromFuture: bool)
    | Locked(round: nat)
    | MajorityPrevote(round: nat)
    | MajorityPrevoteNull(round: nat)
    | MajorityPrecommit(round: nat)
    | CommitState(round: nat, hash: Hash, proof: seq<bool>, accepted: bool)
    | HigherRound(round: nat)
    | TimeoutPropose(blockNumber: nat, round: nat)
    | TimeoutPrevote(blockNumber: nat, round: nat)
    | TimeoutPrecommit(blockNumber: nat, round: nat)
    | Sign(validator: nat)
    | FinishVoting

  datatype Event =
    | Act(node: nat, action: Action)
    | Crash(node: nat)
    | Restart(node: nat)
    | ByzantineVote(vote: Vote)

  ghost function Signers(cfg: Config, sent: set<Vote>, kind: MessageType, prefix: seq<Hash>, round: nat,
                         value: Option<Hash>): set<nat> {
    set i: nat | 0 <= i < cfg.size(prefix) && Vote(kind, prefix, round, value, i) in sent
  }

  /** +2/3 of the validators of the prefix signed this very vote. */
  ghost predicate QuorumFor(cfg: Config, sent: set<Vote>, kind: MessageType, prefix: seq<Hash>, round: nat,
                            hash: Hash) {
    IsMajority(|Signers(cfg, sent, kind, prefix, round, Some(hash))|, cfg.size(prefix))
  }

  function Flagged(flags: seq<bool>): set<nat> {
    set i: nat | 0 <= i < |flags| && flags[i]
  }

  /** An aggregated signature verifies when the flags fit the validator set, +2/3 of them are set, and every flagged
      validator signed the data: signatures cannot be forged. */
  ghost predicate ProofVerifies(cfg: Config, sent: set<Vote>, kind: MessageType, prefix: seq<Hash>, round: nat,
                                hash: Hash, flags: seq<bool>) {
    && |flags| == cfg.size(prefix)
    && IsMajority(|Flagged(flags)|, cfg.size(prefix))
    && Flagged(flags) <= Signers(cfg, sent, kind, prefix, round, Some(hash))
  }

  predicate Paired(proposal: Proposal) {
    && proposal.validRound.Some? == proposal.lockProof.Some?
    && (proposal.validRound.Some? ==> proposal.validRound.value < proposal.round)
  }

  ghost predicate HasValidLockProof(cfg: Config, sent: set<Vote>, prefix: seq<Hash>, p: Proposal) {
    (p.validRound.None? && p.lockProof.None?) ||
    (Paired(p) && p.validRound.Some? &&
     ProofVerifies(cfg, sent, PrevoteMessage, prefix, p.validRound.value, p.hash, p.lockProof.value))
  }

  /** When an action can happen at a node. Rules run one at a time, and none while a vote is being signed. A message or
      proposal may be added however far the round has moved on since it arrived. */
  ghost predicate Enabled(cfg: Config, id: nat, sent: set<Vote>, s: Local, a: Action) {
    match a
    case ReceiveMessage(v) =>
      v in sent && v.prefix == s.chain && !HasMessage(GetRound(s.mem.rounds, v.round), v)
    case StoreMessage(v) => v in sent && v.prefix == s.chain
    case ReceiveProposal(p) =>
      p.blockNumber == Height(s.chain) && Paired(p) && GetRound(s.mem.rounds, p.round).proposal.None?
    case StoreProposal(p) => p.blockNumber == Height(s.chain) && Paired(p)
    case Process(r, readable, accepted) =>
      s.mem.pending.None? &&
      (readable && accepted && GetRound(s.mem.rounds, r).proposal.Some? ==>
         HasValidLockProof(cfg, sent, s.chain, GetRound(s.mem.rounds, r).proposal.value))
    case CommitState(r, hash, proof, _) =>
      s.mem.pending.None? && ProofVerifies(cfg, sent, PrecommitMessage, s.chain, r, hash, proof)
    case Sign(i) => s.mem.pending.Some? && i < cfg.size(s.chain) && cfg.host(s.chain, i) == Some(id)
    case FinishVoting => true
    case _ => s.mem.pending.None?
  }

  function Perform(s: Local, n: nat, a: Action): Local {
    match a
    case ReceiveMessage(v) => AddMessage(s, v)
    case StoreMessage(v) => SaveMessage(s, v)
    case ReceiveProposal(p) => AddProposal(s, p)
    case StoreProposal(p) => SaveProposal(s, p)
    case Process(r, readable, accepted) => ProcessProposal(s, r, readable, accepted)
    case Fresh(r, fromFuture) => OnProposal(s, r, fromFuture)
    case Locked(r) => OnProposalLocked(s, r)
    case MajorityPrevote(r) => OnMajorityPrevote(s, r, n)
    case MajorityPrevoteNull(r) => OnMajorityPrevoteNull(s, r, n)
    case MajorityPrecommit(r) => OnMajorityPrecommit(s, r, n)
    case CommitState(_, hash, _, accepted) => OnCommitState(s, hash, accepted)
    case HigherRound(r) => OnMinorityWithHigherRound(s, r, n)
    case TimeoutPropose(h, r) => OnTimeoutPropose(s, h, r)
    case TimeoutPrevote(h, r) => OnTimeoutPrevote(s, h, r)
    case TimeoutPrecommit(h, r) => OnTimeoutPrecommit(s, h, r)
    case Sign(_) => s
    case FinishVoting => s.(mem := s.mem.(pending := None))
  }

  /** The vote a signature of `validator` adds to the votes ever sent. */
  function Emitted(s: Local, a: Action): set<Vote> {
    if a.Sign? && s.mem.pending.Some? then
      var ballot := s.mem.pending.value;
      {Vote(ballot.kind, s.chain, s.mem.round, ballot.value, a.validator)}
    else {}
  }

  function Up(node: Node): Local
    requires node.mem.Some?
  {
    Local(node.chain, node.disk, node.mem.value)
  }

  function Running(s: Local): Node {
    Node(s.chain, s.disk, Some(s.mem))
  }

  ghost function Next(cfg: Config, g: Global, e: Event): Global {
    match e
    case ByzantineVote(v) =>
      if v.validator < cfg.size(v.prefix) && cfg.host(v.prefix, v.validator).None? then g.(sent := g.sent + {v}) else g
    case Crash(i) =>
      if i < |g.nodes| then g.(nodes := g.nodes[i := g.nodes[i].(mem := None)]) else g
    case Restart(i) =>
      if i < |g.nodes| && g.nodes[i].mem.None? then
        match Bootstrap(g.nodes[i].chain, g.nodes[i].disk, cfg.size(g.nodes[i].chain))
        case Ok(s) => g.(nodes := g.nodes[i := Running(s)])
        case Err(_) => g
      else g
    case Act(i, a) =>
      if i < |g.nodes| && g.nodes[i].mem.Some? && Enabled(cfg, i, g.sent, Up(g.nodes[i]), a) then
        var s := Up(g.nodes[i]);
        Global(g.nodes[i := Running(Perform(s, cfg.size(s.chain), a))], g.sent + Emitted(s, a))
      else g
  }

  function Initial(cfg: Config): Global {
    Global(seq(cfg.nodes, _ => Node([], EMPTY_DISK, None)), {})
  }

  /** The state after a run: all nodes start down, on the genesis block, with an empty store. */
  ghost function Run(cfg: Config, events: seq<Event>): Global {
    if events == [] then Initial(cfg) else Next(cfg, Run(cfg, events[..|events| - 1]), events[|events| - 1])
  }
}
