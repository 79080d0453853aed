/** What every run of the network keeps: no correct validator equivocates, locks follow +2/3 prevotes, and what a
    node has on disk is always the position it acts from. */
module Safety {
  import opened Arithmetic
  import opened Wrappers
  import opened Quorum
  import opened ConsensusTypes
  import opened ConsensusRules
  import opened Network

  ghost predicate HostedBy(cfg: Config, v: Vote, id: nat) {
    v.validator < cfg.size(v.prefix) && cfg.host(v.prefix, v.validator) == Some(id)
  }

  ghost predicate Hosted(cfg: Config, v: Vote) {
    v.validator < cfg.size(v.prefix) && cfg.host(v.prefix, v.validator).Some?
  }

  predicate SameBallot(v: Vote, w: Vote) {
    v.kind == w.kind && v.prefix == w.prefix && v.round == w.round && v.validator == w.validator
  }

  /** A correct validator signs at most one prevote and one precommit per prefix and round. */
  ghost predicate NoEquivocation(cfg: Config, sent: set<Vote>) {
    forall v, w :: v in sent && w in sent && SameBallot(v, w) && Hosted(cfg, v) ==> v.value == w.value
  }

  ghost predicate Polka(cfg: Config, sent: set<Vote>, prefix: seq<Hash>, round: nat, hash: Hash) {
    QuorumFor(cfg, sent, PrevoteMessage, prefix, round, hash)
  }

  /** A correct validator precommits a block only on +2/3 prevotes for it in the same round. */
  ghost predicate PrecommitsHavePolka(cfg: Config, sent: set<Vote>) {
    forall v :: v in sent && Hosted(cfg, v) && v.kind.PrecommitMessage? && v.value.Some? ==>
      Polka(cfg, sent, v.prefix, v.round, v.value.value)
  }

  /** Between the round of a precommit and the round of a later prevote: +2/3 prevotes for the prevoted block. */
  ghost predicate PolkaBetween(cfg: Config, sent: set<Vote>, prefix: seq<Hash>, from: nat, to: nat, hash: Hash) {
    exists r :: from <= r < to && Polka(cfg, sent, prefix, r, hash)
  }

  predicate LaterPrevote(v: Vote, w: Vote) {
    && v.kind.PrecommitMessage? && w.kind.PrevoteMessage? && v.value.Some? && w.value.Some?
    && v.prefix == w.prefix && v.validator == w.validator && v.round < w.round
  }

  /** After a correct validator precommitted a block, it prevotes a block in a later round only on newer prevotes. */
  ghost predicate PrevotesRespectLocks(cfg: Config, sent: set<Vote>) {
    forall v, w :: v in sent && w in sent && Hosted(cfg, v) && LaterPrevote(v, w) ==>
      PolkaBetween(cfg, sent, v.prefix, v.round, w.round, w.value.value)
  }

  ghost predicate SentInv(cfg: Config, sent: set<Vote>) {
    && (forall v :: v in sent ==> v.validator < cfg.size(v.prefix))
    && NoEquivocation(cfg, sent) && PrecommitsHavePolka(cfg, sent) && PrevotesRespectLocks(cfg, sent)
  }

  // Node invariants

  /** Every block of the chain was decided by +2/3 precommits of the validators of the chain below it. */
  ghost predicate Decided(cfg: Config, sent: set<Vote>, prefix: seq<Hash>, hash: Hash) {
    exists r :: QuorumFor(cfg, sent, PrecommitMessage, prefix, r, hash)
  }

  ghost predicate ChainDecided(cfg: Config, sent: set<Vote>, chain: seq<Hash>) {
    forall k :: 0 <= k < |chain| ==> Decided(cfg, sent, chain[..k], chain[k])
  }

  /** Whatever the node signed is at or before the recorded position, and under the recorded lock. */
  ghost predicate SignedBy(cfg: Config, id: nat, sent: set<Vote>, chain: seq<Hash>, rec: StateData) {
    forall v :: v in sent && HostedBy(cfg, v, id) ==>
      && v.prefix <= chain
      && (v.prefix == chain ==> NotAfter(v.round, StepOf(v.kind), rec.round, rec.step))
      && (v.prefix == chain && v.kind.PrecommitMessage? && v.value.Some? ==>
            rec.lockedRound.Some? && v.round <= rec.lockedRound.value)
  }

  ghost predicate WellFormed(rec: StateData) {
    && (rec.lockedRound.Some? ==> rec.validRound.Some? && rec.lockedRound.value <= rec.validRound.value)
    && (rec.validRound.Some? ==> rec.validRound.value <= rec.round)
    && (rec.validRound.Some? && !rec.step.Precommit? ==> rec.validRound.value < rec.round)
  }

  ghost predicate GoodVote(cfg: Config, sent: set<Vote>, chain: seq<Hash>, v: Vote) {
    v in sent && v.prefix <= chain && v.validator < cfg.size(v.prefix)
  }

  ghost predicate DiskInv(cfg: Config, id: nat, sent: set<Vote>, chain: seq<Hash>, disk: Disk) {
    && (disk.state.Some? ==> disk.state.value.blockNumber <= Height(chain))
    && (forall slot :: slot in disk.messages ==>
          && GoodVote(cfg, sent, chain, disk.messages[slot])
          && slot == Slot(disk.messages[slot].round, disk.messages[slot].validator, disk.messages[slot].kind))
    && (forall r :: r in disk.proposals ==> disk.proposals[r].round == r && Paired(disk.proposals[r]))
    && SignedBy(cfg, id, sent, chain, Recorded(chain, disk))
    && WellFormed(Recorded(chain, disk))
    && ChainDecided(cfg, sent, chain)
  }

  /** A tally holds only votes that were really sent. */
  ghost predicate TallyInv(cfg: Config, sent: set<Vote>, chain: seq<Hash>, round: nat, view: RoundView) {
    && (forall i :: i in view.prevotes ==>
          i < cfg.size(chain) && Vote(PrevoteMessage, chain, round, view.prevotes[i], i) in sent)
    && (forall i :: i in view.precommits ==>
          i < cfg.size(chain) && Vote(PrecommitMessage, chain, round, view.precommits[i], i) in sent)
    && (view.proposal.Some? ==> view.proposal.value.round == round && Paired(view.proposal.value))
    && (view.result.Some? ==> view.proposal.Some?)
    && (view.result == Some(true) ==>
          HasValidLockProof(cfg, sent, chain, view.proposal.value))
  }

  /** The round state behind a locked or valid value still proves it. */
  ghost predicate Backed(cfg: Config, s: Local, lock: Lock) {
    var view := GetRound(s.mem.rounds, lock.round);
    HasMajorityPrevotes(view, cfg.size(s.chain)) && view.proposal.value.hash == lock.hash
  }

  predicate AtPosition(v: Vote, s: Local, kind: MessageType) {
    v.prefix == s.chain && v.round == s.mem.round && v.kind == kind
  }

  ghost predicate BallotInv(cfg: Config, id: nat, sent: set<Vote>, s: Local, b: Ballot) {
    && s.mem.step == StepOf(b.kind)
    && (forall v :: v in sent && HostedBy(cfg, v, id) && AtPosition(v, s, b.kind) ==> v.value == b.value)
    && (b.kind.PrecommitMessage? && b.value.Some? ==> s.mem.locked == Some(Lock(s.mem.round, b.value.value)))
    && (b.kind.PrevoteMessage? && b.value.Some? && s.mem.locked.Some? ==>
          PolkaBetween(cfg, sent, s.chain, s.mem.locked.value.round, s.mem.round, b.value.value))
  }

  ghost predicate MemoryInv(cfg: Config, id: nat, sent: set<Vote>, s: Local) {
    && s.mem.storeBlock <= Height(s.chain)
    && (s.disk.state.Some? && s.disk.state.value.blockNumber == Height(s.chain) ==>
          s.mem.storeBlock == Height(s.chain))
    && Recorded(s.chain, s.disk) == StateOf(s)
    && (forall r :: r in s.mem.rounds ==> TallyInv(cfg, sent, s.chain, r, s.mem.rounds[r]))
    && (s.mem.valid.Some? ==> Backed(cfg, s, s.mem.valid.value))
    && (s.mem.locked.Some? ==> Backed(cfg, s, s.mem.locked.value))
    && (s.mem.pending.Some? ==> BallotInv(cfg, id, sent, s, s.mem.pending.value))
  }

  ghost predicate NodeInv(cfg: Config, id: nat, sent: set<Vote>, node: Node) {
    && DiskInv(cfg, id, sent, node.chain, node.disk)
    && (node.mem.Some? ==> MemoryInv(cfg, id, sent, Up(node)))
  }

  ghost predicate Inv(cfg: Config, g: Global) {
    && SentInv(cfg, g.sent)
    && forall i :: 0 <= i < |g.nodes| ==> NodeInv(cfg, i, g.sent, g.nodes[i])
  }

  // More votes never take a quorum away

  lemma QuorumGrows(cfg: Config, sent: set<Vote>, sent': set<Vote>, kind: MessageType, prefix: seq<Hash>, round: nat,
                    hash: Hash)
    requires sent <= sent' && QuorumFor(cfg, sent, kind, prefix, round, hash)
    ensures QuorumFor(cfg, sent', kind, prefix, round, hash)
  {
    SubsetCount(Signers(cfg, sent, kind, prefix, round, Some(hash)),
                Signers(cfg, sent', kind, prefix, round, Some(hash)));
  }

  lemma QuorumsGrow(cfg: Config, sent: set<Vote>, sent': set<Vote>)
    requires sent <= sent'
    ensures forall k, p, r, h :: QuorumFor(cfg, sent, k, p, r, h) ==> QuorumFor(cfg, sent', k, p, r, h)
  {
    forall k, p, r, h | QuorumFor(cfg, sent, k, p, r, h) ensures QuorumFor(cfg, sent', k, p, r, h) {
      QuorumGrows(cfg, sent, sent', k, p, r, h);
    }
  }

  lemma PolkaBetweenGrows(cfg: Config, sent: set<Vote>, sent': set<Vote>, p: seq<Hash>, from: nat, from': nat,
                          to: nat, h: Hash)
    requires sent <= sent' && from' <= from && PolkaBetween(cfg, sent, p, from, to, h)
    ensures PolkaBetween(cfg, sent', p, from', to, h)
  {
    var r :| from <= r < to && Polka(cfg, sent, p, r, h);
    QuorumGrows(cfg, sent, sent', PrevoteMessage, p, r, h);
    assert from' <= r < to && Polka(cfg, sent', p, r, h);
  }

  /** A verified proof is a quorum. */
  lemma ProofIsQuorum(cfg: Config, sent: set<Vote>, kind: MessageType, prefix: seq<Hash>, round: nat, hash: Hash,
                      flags: seq<bool>)
    requires ProofVerifies(cfg, sent, kind, prefix, round, hash, flags)
    ensures QuorumFor(cfg, sent, kind, prefix, round, hash)
  {
    SubsetCount(Flagged(flags), Signers(cfg, sent, kind, prefix, round, Some(hash)));
  }

  /** A majority in a tally is a quorum of votes sent. */
  lemma TallyIsQuorum(cfg: Config, sent: set<Vote>, kind: MessageType, chain: seq<Hash>, round: nat, hash: Hash,
                      votes: map<nat, Option<Hash>>)
    requires forall i :: i in votes ==> i < cfg.size(chain) && Vote(kind, chain, round, votes[i], i) in sent
    requires HasMajorityFor(votes, Some(hash), cfg.size(chain))
    ensures QuorumFor(cfg, sent, kind, chain, round, hash)
  {
    SubsetCount(Voters(votes, Some(hash)), Signers(cfg, sent, kind, chain, round, Some(hash)));
  }

  lemma BackedIsPolka(cfg: Config, id: nat, sent: set<Vote>, s: Local, lock: Lock)
    requires MemoryInv(cfg, id, sent, s) && Backed(cfg, s, lock)
    ensures Polka(cfg, sent, s.chain, lock.round, lock.hash)
  {
    TallyIsQuorum(cfg, sent, PrevoteMessage, s.chain, lock.round, lock.hash,
                  GetRound(s.mem.rounds, lock.round).prevotes);
  }

  // Votes of others leave a node's invariant alone

  lemma MemoryStable(cfg: Config, id: nat, sent: set<Vote>, sent': set<Vote>, s: Local)
    requires MemoryInv(cfg, id, sent, s)
    requires sent <= sent'
    requires forall v :: v in sent' && HostedBy(cfg, v, id) ==> v in sent
    ensures MemoryInv(cfg, id, sent', s)
  {
    forall r | r in s.mem.rounds ensures TallyInv(cfg, sent', s.chain, r, s.mem.rounds[r]) {
      assert TallyInv(cfg, sent, s.chain, r, s.mem.rounds[r]);
    }
    if s.mem.pending.Some? && s.mem.pending.value.value.Some? && s.mem.locked.Some? &&
       s.mem.pending.value.kind.PrevoteMessage? {
      PolkaBetweenGrows(cfg, sent, sent', s.chain, s.mem.locked.value.round, s.mem.locked.value.round, s.mem.round,
                        s.mem.pending.value.value.value);
    }
  }

  lemma NodeStable(cfg: Config, id: nat, sent: set<Vote>, sent': set<Vote>, node: Node)
    requires NodeInv(cfg, id, sent, node)
    requires sent <= sent'
    requires forall v :: v in sent' && HostedBy(cfg, v, id) ==> v in sent
    ensures NodeInv(cfg, id, sent', node)
  {
    QuorumsGrow(cfg, sent, sent');
    forall k | 0 <= k < |node.chain| ensures Decided(cfg, sent', node.chain[..k], node.chain[k]) {
      assert Decided(cfg, sent, node.chain[..k], node.chain[k]);
    }
    if node.mem.Some? {
      MemoryStable(cfg, id, sent, sent', Up(node));
    }
  }

  // One step of one node

  ghost predicate LocalInv(cfg: Config, id: nat, sent: set<Vote>, s: Local) {
    DiskInv(cfg, id, sent, s.chain, s.disk) && MemoryInv(cfg, id, sent, s)
  }

  ghost predicate Unlocks(old_: Option<Lock>, new_: Option<Lock>) {
    old_.Some? && (new_.None? || new_.value.round < old_.value.round)
  }

  /** Moving to a later position, with a lock that only moves up, and writing it to the store. */
  lemma Advance(cfg: Config, id: nat, sent: set<Vote>, s: Local, m: Memory)
    requires LocalInv(cfg, id, sent, s)
    requires m.rounds == s.mem.rounds && m.storeBlock == s.mem.storeBlock && m.pending.None?
    requires NotAfter(s.mem.round, s.mem.step, m.round, m.step)
    requires !Unlocks(s.mem.locked, m.locked)
    requires WellFormed(StateOf(s.(mem := m)))
    requires m.valid.Some? ==> Backed(cfg, s, m.valid.value)
    requires m.locked.Some? ==> Backed(cfg, s, m.locked.value)
    ensures LocalInv(cfg, id, sent, SaveState(s.(mem := m)))
  {
    var t := SaveState(s.(mem := m));
    assert Recorded(t.chain, t.disk) == StateOf(t);
  }

  /** Deciding a vote for a position the node has just entered. */
  lemma CastKeeps(cfg: Config, id: nat, sent: set<Vote>, s: Local, t: Local, kind: MessageType, value: Option<Hash>)
    requires LocalInv(cfg, id, sent, s) && LocalInv(cfg, id, sent, t)
    requires t.chain == s.chain && t.mem.round == s.mem.round && t.mem.step == StepOf(kind)
    requires StepOrder(s.mem.step) < StepOrder(t.mem.step)
    requires kind.PrecommitMessage? && value.Some? ==> t.mem.locked == Some(Lock(t.mem.round, value.value))
    requires kind.PrevoteMessage? && value.Some? && t.mem.locked.Some? ==>
      PolkaBetween(cfg, sent, t.chain, t.mem.locked.value.round, t.mem.round, value.value)
    ensures LocalInv(cfg, id, sent, Cast(t, kind, value))
  {
    assert StateOf(Cast(t, kind, value)) == StateOf(t);
    forall v | v in sent && HostedBy(cfg, v, id) ensures !AtPosition(v, s, kind) {
    }
  }

  lemma EnterKeeps(cfg: Config, id: nat, sent: set<Vote>, s: Local, step: Step)
    requires LocalInv(cfg, id, sent, s) && s.mem.pending.None?
    requires StepOrder(s.mem.step) <= StepOrder(step)
    ensures LocalInv(cfg, id, sent, Enter(s, step))
  {
    Advance(cfg, id, sent, s, s.mem.(step := step));
  }

  lemma StartRoundKeeps(cfg: Config, id: nat, sent: set<Vote>, s: Local, round: nat)
    requires LocalInv(cfg, id, sent, s) && s.mem.pending.None? && round > s.mem.round
    ensures LocalInv(cfg, id, sent, StartRound(s, round))
  {
    Advance(cfg, id, sent, s, s.mem.(round := round, step := Propose, didMajorityPrevote := false,
                                     didMajorityPrecommit := false));
  }

  lemma FreshKeeps(cfg: Config, id: nat, sent: set<Vote>, s: Local, round: nat, fromFuture: bool)
    requires LocalInv(cfg, id, sent, s) && s.mem.pending.None?
    ensures LocalInv(cfg, id, sent, OnProposal(s, round, fromFuture))
  {
    var t := OnProposal(s, round, fromFuture);
    if t != s {
      EnterKeeps(cfg, id, sent, s, Prevote);
      CastKeeps(cfg, id, sent, s, Enter(s, Prevote), PrevoteMessage, t.mem.pending.value.value);
    }
  }

  lemma LockedKeeps(cfg: Config, id: nat, sent: set<Vote>, s: Local, round: nat)
    requires LocalInv(cfg, id, sent, s) && s.mem.pending.None?
    ensures LocalInv(cfg, id, sent, OnProposalLocked(s, round))
  {
    var t := OnProposalLocked(s, round);
    if t != s {
      EnterKeeps(cfg, id, sent, s, Prevote);
      var value := t.mem.pending.value.value;
      var view := GetRound(s.mem.rounds, round);
      var p := view.proposal.value;
      if value.Some? && s.mem.locked.Some? {
        var lock := s.mem.locked.value;
        assert TallyInv(cfg, sent, s.chain, round, view);
        ProofIsQuorum(cfg, sent, PrevoteMessage, s.chain, p.validRound.value, p.hash, p.lockProof.value);
        BackedIsPolka(cfg, id, sent, s, lock);
        assert WellFormed(StateOf(s));
        var r := if lock.round <= p.validRound.value then p.validRound.value else lock.round;
        assert lock.round <= r < s.mem.round && Polka(cfg, sent, s.chain, r, p.hash);
      }
      CastKeeps(cfg, id, sent, s, Enter(s, Prevote), PrevoteMessage, value);
    }
  }

  lemma MajorityPrevoteKeeps(cfg: Config, id: nat, sent: set<Vote>, s: Local, round: nat)
    requires LocalInv(cfg, id, sent, s) && s.mem.pending.None?
    ensures LocalInv(cfg, id, sent, OnMajorityPrevote(s, round, cfg.size(s.chain)))
  {
    var t := OnMajorityPrevote(s, round, cfg.size(s.chain));
    if t != s {
      var hash := GetRound(s.mem.rounds, round).proposal.value.hash;
      var value := Some(Lock(round, hash));
      assert WellFormed(StateOf(s));
      if s.mem.step.Prevote? {
        var m := s.mem.(didMajorityPrevote := true, locked := value, valid := value, step := Precommit);
        Advance(cfg, id, sent, s, m);
        CastKeeps(cfg, id, sent, s, SaveState(s.(mem := m)), PrecommitMessage, Some(hash));
      } else {
        Advance(cfg, id, sent, s, s.mem.(didMajorityPrevote := true, valid := value));
      }
    }
  }

  /** Leaving the propose or prevote step without a block: prevoting or precommitting nil. */
  lemma NilKeeps(cfg: Config, id: nat, sent: set<Vote>, s: Local, kind: MessageType)
    requires LocalInv(cfg, id, sent, s) && s.mem.pending.None?
    requires StepOrder(s.mem.step) < StepOrder(StepOf(kind))
    ensures LocalInv(cfg, id, sent, Cast(Enter(s, StepOf(kind)), kind, None))
  {
    EnterKeeps(cfg, id, sent, s, StepOf(kind));
    CastKeeps(cfg, id, sent, s, Enter(s, StepOf(kind)), kind, None);
  }

  /** Committing a decided block: the next height starts clean, and the old store no longer counts. */
  lemma CommitKeeps(cfg: Config, id: nat, sent: set<Vote>, s: Local, round: nat, hash: Hash)
    requires LocalInv(cfg, id, sent, s) && s.mem.pending.None?
    requires QuorumFor(cfg, sent, PrecommitMessage, s.chain, round, hash)
    ensures LocalInv(cfg, id, sent, Commit(s, hash))
  {
    var t := Commit(s, hash);
    forall k | 0 <= k < |t.chain| ensures Decided(cfg, sent, t.chain[..k], t.chain[k]) {
      if k < |s.chain| {
        assert t.chain[..k] == s.chain[..k];
        assert Decided(cfg, sent, s.chain[..k], s.chain[k]);
      } else {
        assert t.chain[..k] == s.chain;
      }
    }
    assert Recorded(t.chain, t.disk) == InitialState(Height(t.chain));
  }

  lemma MajorityPrecommitKeeps(cfg: Config, id: nat, sent: set<Vote>, s: Local, round: nat)
    requires LocalInv(cfg, id, sent, s) && s.mem.pending.None?
    ensures LocalInv(cfg, id, sent, OnMajorityPrecommit(s, round, cfg.size(s.chain)))
  {
    var view := GetRound(s.mem.rounds, round);
    if HasMajorityPrecommits(view, cfg.size(s.chain)) && !s.mem.didMajorityPrecommit {
      if view.result == Some(true) {
        var hash := view.proposal.value.hash;
        TallyIsQuorum(cfg, sent, PrecommitMessage, s.chain, round, hash, view.precommits);
        CommitKeeps(cfg, id, sent, s, round, hash);
      } else {
        assert StateOf(s.(mem := s.mem.(didMajorityPrecommit := true))) == StateOf(s);
      }
    }
  }

  /** Growing a round state: votes and proposals are only ever added. */
  ghost predicate Extends(old_: RoundView, new_: RoundView) {
    && (old_.proposal.Some? ==> new_.proposal == old_.proposal)
    && (old_.deserialized ==> new_.deserialized)
    && (forall i :: i in old_.prevotes ==> i in new_.prevotes && new_.prevotes[i] == old_.prevotes[i])
  }

  lemma SetRoundKeeps(cfg: Config, id: nat, sent: set<Vote>, s: Local, round: nat, view: RoundView)
    requires LocalInv(cfg, id, sent, s)
    requires TallyInv(cfg, sent, s.chain, round, view)
    requires Extends(GetRound(s.mem.rounds, round), view)
    ensures LocalInv(cfg, id, sent, SetRound(s, round, view))
  {
    var t := SetRound(s, round, view);
    assert StateOf(t) == StateOf(s);
    forall lock | Backed(cfg, s, lock) ensures Backed(cfg, t, lock) {
      var before, after := GetRound(s.mem.rounds, lock.round), GetRound(t.mem.rounds, lock.round);
      SubsetCount(Voters(before.prevotes, Some(lock.hash)), Voters(after.prevotes, Some(lock.hash)));
    }
  }

  lemma StoreKeeps(cfg: Config, id: nat, sent: set<Vote>, s: Local, disk: Disk)
    requires LocalInv(cfg, id, sent, s)
    requires DiskInv(cfg, id, sent, s.chain, disk)
    requires disk.state == Prepared(s.disk, s.mem.storeBlock, Height(s.chain)).state
    ensures LocalInv(cfg, id, sent, s.(disk := disk, mem := s.mem.(storeBlock := Height(s.chain))))
  {
    var t := s.(disk := disk, mem := s.mem.(storeBlock := Height(s.chain)));
    assert StateOf(t) == StateOf(s);
  }

  lemma SaveMessageKeeps(cfg: Config, id: nat, sent: set<Vote>, s: Local, v: Vote)
    requires LocalInv(cfg, id, sent, s)
    requires v in sent && v.prefix == s.chain && v.validator < cfg.size(v.prefix)
    ensures LocalInv(cfg, id, sent, SaveMessage(s, v))
  {
    StoreKeeps(cfg, id, sent, s, SaveMessage(s, v).disk);
  }

  lemma SaveProposalKeeps(cfg: Config, id: nat, sent: set<Vote>, s: Local, p: Proposal)
    requires LocalInv(cfg, id, sent, s) && Paired(p)
    ensures LocalInv(cfg, id, sent, SaveProposal(s, p))
  {
    StoreKeeps(cfg, id, sent, s, SaveProposal(s, p).disk);
  }

  lemma AddMessageKeeps(cfg: Config, id: nat, sent: set<Vote>, s: Local, v: Vote)
    requires LocalInv(cfg, id, sent, s)
    requires v in sent && v.prefix == s.chain && v.validator < cfg.size(v.prefix)
    requires !HasMessage(GetRound(s.mem.rounds, v.round), v)
    ensures LocalInv(cfg, id, sent, AddMessage(s, v))
  {
    hide IsMajority, QuorumFor, HasValidLockProof, SignedBy, ChainDecided;
    var view := GetRound(s.mem.rounds, v.round);
    assert TallyInv(cfg, sent, s.chain, v.round, view);
    SetRoundKeeps(cfg, id, sent, s, v.round, GetRound(AddMessage(s, v).mem.rounds, v.round));
  }

  lemma AddProposalKeeps(cfg: Config, id: nat, sent: set<Vote>, s: Local, p: Proposal)
    requires LocalInv(cfg, id, sent, s) && Paired(p)
    requires GetRound(s.mem.rounds, p.round).proposal.None?
    ensures LocalInv(cfg, id, sent, AddProposal(s, p))
  {
    var view := GetRound(s.mem.rounds, p.round);
    assert TallyInv(cfg, sent, s.chain, p.round, view);
    SetRoundKeeps(cfg, id, sent, s, p.round, view.(proposal := Some(p)));
  }

  lemma ProcessKeeps(cfg: Config, id: nat, sent: set<Vote>, s: Local, round: nat, readable: bool, accepted: bool)
    requires LocalInv(cfg, id, sent, s)
    requires Enabled(cfg, id, sent, s, Process(round, readable, accepted))
    ensures LocalInv(cfg, id, sent, ProcessProposal(s, round, readable, accepted))
  {
    var view := GetRound(s.mem.rounds, round);
    if view.result.None? && view.proposal.Some? {
      assert TallyInv(cfg, sent, s.chain, round, view);
      SetRoundKeeps(cfg, id, sent, s, round, GetRound(ProcessProposal(s, round, readable, accepted).mem.rounds, round));
    }
  }

  /** Every action but signing keeps the invariant of its node, with the votes sent unchanged. */
  lemma PerformKeeps(cfg: Config, id: nat, sent: set<Vote>, s: Local, a: Action)
    requires SentInv(cfg, sent) && LocalInv(cfg, id, sent, s)
    requires Enabled(cfg, id, sent, s, a)
    ensures LocalInv(cfg, id, sent, Perform(s, cfg.size(s.chain), a))
  {
    match a
    case ReceiveMessage(v) => AddMessageKeeps(cfg, id, sent, s, v);
    case StoreMessage(v) => SaveMessageKeeps(cfg, id, sent, s, v);
    case ReceiveProposal(p) => AddProposalKeeps(cfg, id, sent, s, p);
    case StoreProposal(p) => SaveProposalKeeps(cfg, id, sent, s, p);
    case Process(r, readable, accepted) => ProcessKeeps(cfg, id, sent, s, r, readable, accepted);
    case Fresh(r, fromFuture) => FreshKeeps(cfg, id, sent, s, r, fromFuture);
    case Locked(r) => LockedKeeps(cfg, id, sent, s, r);
    case MajorityPrevote(r) => MajorityPrevoteKeeps(cfg, id, sent, s, r);
    case MajorityPrecommit(r) => MajorityPrecommitKeeps(cfg, id, sent, s, r);
    case CommitState(r, hash, proof, accepted) =>
      ProofIsQuorum(cfg, sent, PrecommitMessage, s.chain, r, hash, proof);
      CommitKeeps(cfg, id, sent, s, r, hash);
    case HigherRound(r) => if r > s.mem.round { StartRoundKeeps(cfg, id, sent, s, r); }
    case TimeoutPrecommit(_, _) => StartRoundKeeps(cfg, id, sent, s, s.mem.round + 1);
    case MajorityPrevoteNull(_) => if s.mem.step.Prevote? { NilKeeps(cfg, id, sent, s, PrecommitMessage); }
    case TimeoutPrevote(_, _) => if s.mem.step.Prevote? { NilKeeps(cfg, id, sent, s, PrecommitMessage); }
    case TimeoutPropose(_, _) => if s.mem.step.Propose? { NilKeeps(cfg, id, sent, s, PrevoteMessage); }
    case Sign(_) =>
    case FinishVoting => assert StateOf(s.(mem := s.mem.(pending := None))) == StateOf(s);
  }

  /** A signature at the recorded position: no equivocation, and no prevote against the lock. */
  lemma SignKeepsSent(cfg: Config, id: nat, sent: set<Vote>, s: Local, i: nat)
    requires SentInv(cfg, sent) && LocalInv(cfg, id, sent, s)
    requires Enabled(cfg, id, sent, s, Sign(i))
    ensures SentInv(cfg, sent + Emitted(s, Sign(i)))
  {
    var ballot := s.mem.pending.value;
    var x := Vote(ballot.kind, s.chain, s.mem.round, ballot.value, i);
    var sent' := sent + {x};
    assert sent' == sent + Emitted(s, Sign(i));
    QuorumsGrow(cfg, sent, sent');
    if x.kind.PrecommitMessage? && x.value.Some? {
      BackedIsPolka(cfg, id, sent, s, s.mem.locked.value);
    }
    forall v, w | v in sent && w in sent && Hosted(cfg, v) && LaterPrevote(v, w)
      ensures PolkaBetween(cfg, sent', v.prefix, v.round, w.round, w.value.value)
    {
      PolkaBetweenGrows(cfg, sent, sent', v.prefix, v.round, v.round, w.round, w.value.value);
    }
    forall v | v in sent && LaterPrevote(v, x)
      ensures PolkaBetween(cfg, sent', v.prefix, v.round, x.round, x.value.value)
    {
      assert HostedBy(cfg, v, id);
      PolkaBetweenGrows(cfg, sent, sent', v.prefix, s.mem.locked.value.round, v.round, x.round, x.value.value);
    }
    forall w | w in sent ensures !LaterPrevote(x, w) {
      if w.prefix == x.prefix && w.validator == x.validator {
        assert HostedBy(cfg, w, id);
      }
    }
    assert NoEquivocation(cfg, sent');
  }

  lemma SignKeepsLocal(cfg: Config, id: nat, sent: set<Vote>, s: Local, i: nat)
    requires LocalInv(cfg, id, sent, s)
    requires Enabled(cfg, id, sent, s, Sign(i))
    ensures LocalInv(cfg, id, sent + Emitted(s, Sign(i)), s)
  {
    var sent' := sent + Emitted(s, Sign(i));
    QuorumsGrow(cfg, sent, sent');
    forall k | 0 <= k < |s.chain| ensures Decided(cfg, sent', s.chain[..k], s.chain[k]) {
      assert Decided(cfg, sent, s.chain[..k], s.chain[k]);
    }
    forall r | r in s.mem.rounds ensures TallyInv(cfg, sent', s.chain, r, s.mem.rounds[r]) {
      assert TallyInv(cfg, sent, s.chain, r, s.mem.rounds[r]);
    }
    var b := s.mem.pending.value;
    if b.kind.PrevoteMessage? && b.value.Some? && s.mem.locked.Some? {
      PolkaBetweenGrows(cfg, sent, sent', s.chain, s.mem.locked.value.round, s.mem.locked.value.round, s.mem.round,
                        b.value.value);
    }
  }

  // Restart

  lemma StoredVoteSent(cfg: Config, id: nat, sent: set<Vote>, chain: seq<Hash>, disk: Disk, round: nat,
                       kind: MessageType, i: nat)
    requires DiskInv(cfg, id, sent, chain, disk)
    requires i in StoredVotes(disk.messages, Height(chain), round, kind)
    ensures i < cfg.size(chain)
    ensures Vote(kind, chain, round, StoredVotes(disk.messages, Height(chain), round, kind)[i], i) in sent
  {
    var slot := Slot(round, i, kind);
    assert slot in disk.messages && Height(disk.messages[slot].prefix) == Height(chain);
    var v := disk.messages[slot];
    assert GoodVote(cfg, sent, chain, v);
    assert v.prefix == chain;
  }

  lemma StoredTallies(cfg: Config, id: nat, sent: set<Vote>, chain: seq<Hash>, disk: Disk, round: nat)
    requires DiskInv(cfg, id, sent, chain, disk)
    ensures TallyInv(cfg, sent, chain, round, StoredRound(disk, Height(chain), round))
  {
    var view := StoredRound(disk, Height(chain), round);
    forall i | i in view.prevotes
      ensures i < cfg.size(chain) && Vote(PrevoteMessage, chain, round, view.prevotes[i], i) in sent
    {
      StoredVoteSent(cfg, id, sent, chain, disk, round, PrevoteMessage, i);
    }
    forall i | i in view.precommits
      ensures i < cfg.size(chain) && Vote(PrecommitMessage, chain, round, view.precommits[i], i) in sent
    {
      StoredVoteSent(cfg, id, sent, chain, disk, round, PrecommitMessage, i);
    }
  }

  lemma LoadedTallies(cfg: Config, id: nat, sent: set<Vote>, chain: seq<Hash>, disk: Disk)
    requires DiskInv(cfg, id, sent, chain, disk)
    ensures forall r :: r in LoadedRounds(disk, Height(chain)) ==>
      TallyInv(cfg, sent, chain, r, LoadedRounds(disk, Height(chain))[r])
  {
    forall r | r in LoadedRounds(disk, Height(chain))
      ensures TallyInv(cfg, sent, chain, r, LoadedRounds(disk, Height(chain))[r])
    {
      StoredTallies(cfg, id, sent, chain, disk, r);
    }
  }

  lemma RestoredKeeps(cfg: Config, id: nat, sent: set<Vote>, chain: seq<Hash>, disk: Disk,
                      rounds: map<nat, RoundView>, valid: Option<Lock>, locked: Option<Lock>, s: Local)
    requires DiskInv(cfg, id, sent, chain, disk)
    requires forall r :: r in rounds ==> TallyInv(cfg, sent, chain, r, rounds[r])
    requires ProvenIfStored(rounds, Recorded(chain, disk).validRound, cfg.size(chain)) == Ok(valid)
    requires ProvenIfStored(rounds, Recorded(chain, disk).lockedRound, cfg.size(chain)) == Ok(locked)
    requires s.chain == chain && s.disk == disk
    requires s.mem.rounds == Deserialized(Deserialized(rounds, valid), locked)
    requires s.mem.valid == valid && s.mem.locked == locked && s.mem.pending.None?
    requires s.mem.round == Recorded(chain, disk).round && s.mem.step == Recorded(chain, disk).step
    requires s.mem.storeBlock == if disk.state.Some? then disk.state.value.blockNumber else 0
    ensures LocalInv(cfg, id, sent, s)
  {
    hide Polka, QuorumFor, SignedBy, ChainDecided, IsMajority, HasValidLockProof;
    assert StateOf(s) == Recorded(chain, disk);
  }

  lemma RestartKeeps(cfg: Config, id: nat, sent: set<Vote>, chain: seq<Hash>, disk: Disk)
    requires DiskInv(cfg, id, sent, chain, disk)
    ensures Bootstrap(chain, disk, cfg.size(chain)).Ok? ==>
      LocalInv(cfg, id, sent, Bootstrap(chain, disk, cfg.size(chain)).value)
  {
    if Bootstrap(chain, disk, cfg.size(chain)).Ok? {
      LoadedTallies(cfg, id, sent, chain, disk);
      var s := Bootstrap(chain, disk, cfg.size(chain)).value;
      RestoredKeeps(cfg, id, sent, chain, disk, LoadedRounds(disk, Height(chain)), s.mem.valid, s.mem.locked, s);
    }
  }

  // Runs

  lemma ByzantineKeeps(cfg: Config, g: Global, v: Vote)
    requires Inv(cfg, g)
    ensures Inv(cfg, Next(cfg, g, ByzantineVote(v)))
  {
    var g' := Next(cfg, g, ByzantineVote(v));
    if g' != g {
      forall i | 0 <= i < |g.nodes| ensures NodeInv(cfg, i, g'.sent, g'.nodes[i]) {
        NodeStable(cfg, i, g.sent, g'.sent, g.nodes[i]);
      }
      QuorumsGrow(cfg, g.sent, g'.sent);
      forall x, w | x in g'.sent && w in g'.sent && Hosted(cfg, x) && LaterPrevote(x, w)
        ensures PolkaBetween(cfg, g'.sent, x.prefix, x.round, w.round, w.value.value)
      {
        PolkaBetweenGrows(cfg, g.sent, g'.sent, x.prefix, x.round, x.round, w.round, w.value.value);
      }
    }
  }

  lemma ActKeeps(cfg: Config, g: Global, i: nat, a: Action)
    requires Inv(cfg, g)
    requires i < |g.nodes| && g.nodes[i].mem.Some? && Enabled(cfg, i, g.sent, Up(g.nodes[i]), a)
    ensures Inv(cfg, Next(cfg, g, Act(i, a)))
  {
    var s := Up(g.nodes[i]);
    var g' := Next(cfg, g, Act(i, a));
    assert NodeInv(cfg, i, g.sent, g.nodes[i]);
    if a.Sign? {
      SignKeepsSent(cfg, i, g.sent, s, a.validator);
      SignKeepsLocal(cfg, i, g.sent, s, a.validator);
      forall j | 0 <= j < |g.nodes| && j != i ensures NodeInv(cfg, j, g'.sent, g'.nodes[j]) {
        NodeStable(cfg, j, g.sent, g'.sent, g.nodes[j]);
      }
    } else {
      PerformKeeps(cfg, i, g.sent, s, a);
      assert g'.sent == g.sent;
    }
  }

  lemma NextKeeps(cfg: Config, g: Global, e: Event)
    requires Inv(cfg, g)
    ensures Inv(cfg, Next(cfg, g, e))
  {
    var g' := Next(cfg, g, e);
    match e
    case ByzantineVote(v) =>
      ByzantineKeeps(cfg, g, v);
    case Crash(i) =>
    case Restart(i) =>
      if i < |g.nodes| && g.nodes[i].mem.None? {
        RestartKeeps(cfg, i, g.sent, g.nodes[i].chain, g.nodes[i].disk);
      }
    case Act(i, a) =>
      if i < |g.nodes| && g.nodes[i].mem.Some? && Enabled(cfg, i, g.sent, Up(g.nodes[i]), a) {
        ActKeeps(cfg, g, i, a);
      }
  }

  lemma {:induction false} RunKeeps(cfg: Config, events: seq<Event>)
    ensures Inv(cfg, Run(cfg, events))
  {
    if events == [] {
    } else {
      RunKeeps(cfg, events[..|events| - 1]);
      NextKeeps(cfg, Run(cfg, events[..|events| - 1]), events[|events| - 1]);
    }
  }
}
