/** What stands behind the votes and blocks of every run: a correct validator votes only for a block its own node
    processed and found valid, and every committed block was timely for more than a third of the validators, all of
    them correct. */
module Validity {
  import opened Wrappers
  import opened Quorum
  import opened ConsensusTypes
  import opened ConsensusRules
  import opened Network
  import opened Safety
  import opened Agreement

  /** What a node found out about a block on top of its chain: processing it succeeded, or it was not from the future
      when its proposal was looked at in a round. */
  datatype Verdict =
    | Valid(node: nat, prefix: seq<Hash>, hash: Hash)
    | Timely(node: nat, prefix: seq<Hash>, round: nat, hash: Hash)

  /** The verdict an action gives. */
  ghost function Judges(id: nat, s: Local, a: Action): set<Verdict> {
    match a
    case Process(r, readable, accepted) =>
      var view := GetRound(s.mem.rounds, r);
      if readable && accepted && view.proposal.Some? && view.result.None?
      then {Valid(id, s.chain, view.proposal.value.hash)} else {}
    case Fresh(r, fromFuture) =>
      var view := GetRound(s.mem.rounds, r);
      if !fromFuture && r == s.mem.round && view.proposal.Some?
      then {Timely(id, s.chain, r, view.proposal.value.hash)} else {}
    case _ => {}
  }

  ghost function JudgedBy(cfg: Config, g: Global, e: Event): set<Verdict> {
    if e.Act? && e.node < |g.nodes| && g.nodes[e.node].mem.Some? &&
       Enabled(cfg, e.node, g.sent, Up(g.nodes[e.node]), e.action)
    then Judges(e.node, Up(g.nodes[e.node]), e.action) else {}
  }

  /** All verdicts of a run. */
  ghost function Judged(cfg: Config, events: seq<Event>): set<Verdict> {
    if events == [] then {}
    else
      var front := events[..|events| - 1];
      Judged(cfg, front) + JudgedBy(cfg, Run(cfg, front), events[|events| - 1])
  }

  // Processing

  /** A round state with a good verdict holds a proposal whose block the node found valid. */
  ghost predicate ViewVouched(id: nat, judged: set<Verdict>, chain: seq<Hash>, view: RoundView) {
    view.result == Some(true) ==> view.proposal.Some? && Valid(id, chain, view.proposal.value.hash) in judged
  }

  ghost predicate RoundsVouched(id: nat, judged: set<Verdict>, chain: seq<Hash>, rounds: map<nat, RoundView>) {
    forall r :: r in rounds ==> ViewVouched(id, judged, chain, rounds[r])
  }

  ghost predicate BallotVouched(id: nat, judged: set<Verdict>, chain: seq<Hash>, pending: Option<Ballot>) {
    pending.Some? && pending.value.value.Some? ==> Valid(id, chain, pending.value.value.value) in judged
  }

  /** What this node votes for, or may vote for, it found valid. */
  ghost predicate Vouched(id: nat, judged: set<Verdict>, s: Local) {
    RoundsVouched(id, judged, s.chain, s.mem.rounds) && BallotVouched(id, judged, s.chain, s.mem.pending)
  }

  ghost predicate VotesVouched(cfg: Config, sent: set<Vote>, judged: set<Verdict>) {
    forall v, id :: v in sent && HostedBy(cfg, v, id) && v.value.Some? ==> Valid(id, v.prefix, v.value.value) in judged
  }

  lemma GetRoundVouched(id: nat, judged: set<Verdict>, chain: seq<Hash>, rounds: map<nat, RoundView>, r: nat)
    requires RoundsVouched(id, judged, chain, rounds)
    ensures ViewVouched(id, judged, chain, GetRound(rounds, r))
  {
  }

  predicate ChangesRounds(a: Action) {
    a.ReceiveMessage? || a.ReceiveProposal? || a.Process?
  }

  lemma ChangedRoundsVouched(cfg: Config, id: nat, sent: set<Vote>, judged: set<Verdict>, s: Local, a: Action)
    requires Vouched(id, judged, s) && Enabled(cfg, id, sent, s, a) && ChangesRounds(a)
    ensures Vouched(id, judged + Judges(id, s, a), Perform(s, cfg.size(s.chain), a))
  {
    var r := if a.ReceiveMessage? then a.vote.round else if a.ReceiveProposal? then a.proposal.round else a.round;
    GetRoundVouched(id, judged, s.chain, s.mem.rounds, r);
  }

  /** The rules leave the round states alone or forget them, and vote for nothing without a good verdict. */
  lemma RulesVouch(id: nat, judged: set<Verdict>, s: Local, n: nat, a: Action)
    requires RoundsVouched(id, judged, s.chain, s.mem.rounds) && BallotVouched(id, judged, s.chain, s.mem.pending)
    requires !ChangesRounds(a)
    ensures BallotVouched(id, judged, Perform(s, n, a).chain, Perform(s, n, a).mem.pending) || s.mem.pending.Some?
    ensures Perform(s, n, a).mem.rounds == map[] ||
            (Perform(s, n, a).mem.rounds == s.mem.rounds && Perform(s, n, a).chain == s.chain)
    ensures s.mem.pending.Some? && Perform(s, n, a).chain == s.chain ==>
      BallotVouched(id, judged, s.chain, Perform(s, n, a).mem.pending)
  {
    hide RoundsVouched, HasMajorityFor, GetRound;
    if a.Fresh? || a.Locked? || a.MajorityPrevote? {
      GetRoundVouched(id, judged, s.chain, s.mem.rounds, a.round);
    }
  }

  lemma KeepsChainWhileVoting(cfg: Config, id: nat, sent: set<Vote>, s: Local, a: Action)
    requires Enabled(cfg, id, sent, s, a) && s.mem.pending.Some?
    ensures Perform(s, cfg.size(s.chain), a).chain == s.chain
  {
  }

  lemma PerformVouches(cfg: Config, id: nat, sent: set<Vote>, judged: set<Verdict>, s: Local, a: Action)
    requires Vouched(id, judged, s) && Enabled(cfg, id, sent, s, a)
    ensures Vouched(id, judged + Judges(id, s, a), Perform(s, cfg.size(s.chain), a))
  {
    if ChangesRounds(a) {
      ChangedRoundsVouched(cfg, id, sent, judged, s, a);
    } else {
      if s.mem.pending.Some? {
        KeepsChainWhileVoting(cfg, id, sent, s, a);
      }
      hide Perform, Enabled, Judges;
      RulesVouch(id, judged, s, cfg.size(s.chain), a);
    }
  }

  ghost predicate NoVerdicts(rounds: map<nat, RoundView>) {
    forall r :: r in rounds ==> rounds[r].result.None?
  }

  lemma LoadedWithoutVerdicts(disk: Disk, blockNumber: nat)
    ensures NoVerdicts(LoadedRounds(disk, blockNumber))
  {
    hide StoredVotes;
  }

  lemma DeserializedWithoutVerdicts(rounds: map<nat, RoundView>, value: Option<Lock>)
    requires NoVerdicts(rounds)
    ensures NoVerdicts(Deserialized(rounds, value))
  {
  }

  lemma WithoutVerdictsVouched(id: nat, judged: set<Verdict>, s: Local)
    requires NoVerdicts(s.mem.rounds) && s.mem.pending.None?
    ensures Vouched(id, judged, s)
  {
  }

  /** Verdicts do not survive a crash. */
  lemma RestartVouches(id: nat, judged: set<Verdict>, chain: seq<Hash>, disk: Disk, n: nat)
    ensures Bootstrap(chain, disk, n).Ok? ==> Vouched(id, judged, Bootstrap(chain, disk, n).value)
  {
    hide LoadedRounds, ProvenIfStored, Recorded, Deserialized, NoVerdicts, Vouched;
    var rounds := LoadedRounds(disk, Height(chain));
    LoadedWithoutVerdicts(disk, Height(chain));
    match Bootstrap(chain, disk, n)
    case Err(_) =>
    case Ok(s) =>
      DeserializedWithoutVerdicts(rounds, s.mem.valid);
      DeserializedWithoutVerdicts(Deserialized(rounds, s.mem.valid), s.mem.locked);
      WithoutVerdictsVouched(id, judged, s);
  }

  ghost predicate AllVouched(cfg: Config, g: Global, judged: set<Verdict>) {
    && VotesVouched(cfg, g.sent, judged)
    && forall i :: 0 <= i < |g.nodes| && g.nodes[i].mem.Some? ==> Vouched(i, judged, Up(g.nodes[i]))
  }

  /** What a node signs is its pending vote. */
  lemma EmittedIsVouched(cfg: Config, id: nat, sent: set<Vote>, judged: set<Verdict>, s: Local, a: Action)
    requires VotesVouched(cfg, sent, judged) && Vouched(id, judged, s) && Enabled(cfg, id, sent, s, a)
    ensures VotesVouched(cfg, sent + Emitted(s, a), judged)
  {
  }

  lemma NextVouches(cfg: Config, g: Global, judged: set<Verdict>, e: Event)
    requires AllVouched(cfg, g, judged)
    ensures AllVouched(cfg, Next(cfg, g, e), judged + JudgedBy(cfg, g, e))
  {
    hide Enabled, Perform, Bootstrap, Judges;
    match e
    case ByzantineVote(v) =>
    case Crash(i) =>
    case Restart(i) =>
      if i < |g.nodes| {
        RestartVouches(i, judged, g.nodes[i].chain, g.nodes[i].disk, cfg.size(g.nodes[i].chain));
      }
    case Act(i, a) =>
      if i < |g.nodes| && g.nodes[i].mem.Some? && Enabled(cfg, i, g.sent, Up(g.nodes[i]), a) {
        PerformVouches(cfg, i, g.sent, judged, Up(g.nodes[i]), a);
        EmittedIsVouched(cfg, i, g.sent, judged, Up(g.nodes[i]), a);
        hide Emitted;
      }
  }

  lemma StartVouches(cfg: Config)
    ensures AllVouched(cfg, Initial(cfg), {})
  {
  }

  lemma {:induction false} RunVouches(cfg: Config, events: seq<Event>)
    ensures AllVouched(cfg, Run(cfg, events), Judged(cfg, events))
  {
    hide AllVouched, JudgedBy, Next;
    if events == [] {
      StartVouches(cfg);
    } else {
      var front := events[..|events| - 1];
      RunVouches(cfg, front);
      NextVouches(cfg, Run(cfg, front), Judged(cfg, front), events[|events| - 1]);
    }
  }

  /** In every run, with crashes at any point, a correct validator prevotes or precommits a block only if its own node
      processed a proposal of that block on that chain and found it valid. */
  lemma VotesAreValid(cfg: Config, events: seq<Event>, v: Vote, id: nat)
    requires v in Run(cfg, events).sent && v.value.Some? && cfg.host(v.prefix, v.validator) == Some(id)
    ensures Valid(id, v.prefix, v.value.value) in Judged(cfg, events)
  {
    RunKeeps(cfg, events);
    RunVouches(cfg, events);
    assert HostedBy(cfg, v, id);
  }

  /** So every block any node committed was found valid, on the chain below it, by the node of a correct validator. */
  lemma CommittedIsValid(cfg: Config, events: seq<Event>, i: nat, k: nat) returns (id: nat)
    requires Resilient(cfg) && i < |Run(cfg, events).nodes| && k < |Run(cfg, events).nodes[i].chain|
    ensures var chain := Run(cfg, events).nodes[i].chain;
      Valid(id, chain[..k], chain[k]) in Judged(cfg, events)
  {
    RunKeeps(cfg, events);
    var g := Run(cfg, events);
    assert NodeInv(cfg, i, g.sent, g.nodes[i]);
    var chain := g.nodes[i].chain;
    assert Decided(cfg, g.sent, chain[..k], chain[k]);
    var r :| QuorumFor(cfg, g.sent, PrecommitMessage, chain[..k], r, chain[k]);
    var j := CommonSigner(cfg, g.sent, chain[..k], PrecommitMessage, r, chain[k], PrecommitMessage, r, chain[k]);
    id := cfg.host(chain[..k], j).value;
    VotesAreValid(cfg, events, Vote(PrecommitMessage, chain[..k], r, Some(chain[k]), j), id);
  }

  // Proposals

  /** Every proposal a node holds is for the block it works on. */
  ghost predicate ProposalsFit(s: Local) {
    forall r :: r in s.mem.rounds && s.mem.rounds[r].proposal.Some? ==>
      s.mem.rounds[r].proposal.value.blockNumber == |s.chain| + 1
  }

  lemma RulesKeepRounds(s: Local, n: nat, a: Action)
    requires !ChangesRounds(a)
    ensures Perform(s, n, a).mem.rounds == map[] ||
            (Perform(s, n, a).mem.rounds == s.mem.rounds && Perform(s, n, a).chain == s.chain)
  {
    hide HasMajorityFor, GetRound;
  }

  lemma ForgottenFit(s: Local, t: Local)
    requires ProposalsFit(s)
    requires t.mem.rounds == map[] || (t.mem.rounds == s.mem.rounds && t.chain == s.chain)
    ensures ProposalsFit(t)
  {
  }

  lemma PerformFits(cfg: Config, id: nat, sent: set<Vote>, s: Local, a: Action)
    requires ProposalsFit(s) && Enabled(cfg, id, sent, s, a)
    ensures ProposalsFit(Perform(s, cfg.size(s.chain), a))
  {
    if ChangesRounds(a) {
      hide HasValidLockProof;
    } else {
      hide Enabled, ProposalsFit;
      RulesKeepRounds(s, cfg.size(s.chain), a);
      ForgottenFit(s, Perform(s, cfg.size(s.chain), a));
    }
  }

  ghost predicate RoundsFit(rounds: map<nat, RoundView>, blockNumber: nat) {
    forall r :: r in rounds && rounds[r].proposal.Some? ==> rounds[r].proposal.value.blockNumber == blockNumber
  }

  lemma DeserializedFit(rounds: map<nat, RoundView>, value: Option<Lock>, blockNumber: nat)
    requires RoundsFit(rounds, blockNumber)
    ensures RoundsFit(Deserialized(rounds, value), blockNumber)
  {
  }

  lemma LoadedFit(disk: Disk, blockNumber: nat)
    ensures RoundsFit(LoadedRounds(disk, blockNumber), blockNumber)
  {
    hide StoredVotes;
  }

  lemma RestartFits(chain: seq<Hash>, disk: Disk, n: nat)
    ensures Bootstrap(chain, disk, n).Ok? ==> ProposalsFit(Bootstrap(chain, disk, n).value)
  {
    hide LoadedRounds, ProvenIfStored, Recorded, Deserialized;
    var rounds := LoadedRounds(disk, Height(chain));
    LoadedFit(disk, Height(chain));
    match Bootstrap(chain, disk, n)
    case Err(_) =>
    case Ok(s) =>
      DeserializedFit(rounds, s.mem.valid, Height(chain));
      DeserializedFit(Deserialized(rounds, s.mem.valid), s.mem.locked, Height(chain));
  }

  /** In every run, whatever is left in the store from before, a node only holds proposals for the block after its
      chain. */
  lemma {:induction false} ProposalsAreCurrent(cfg: Config, events: seq<Event>, i: nat)
    requires i < |Run(cfg, events).nodes| && Run(cfg, events).nodes[i].mem.Some?
    ensures ProposalsFit(Up(Run(cfg, events).nodes[i]))
  {
    hide ProposalsFit, Enabled, Perform, Bootstrap;
    if events == [] {
    } else {
      var front, e := events[..|events| - 1], events[|events| - 1];
      var g := Run(cfg, front);
      if g.nodes[i].mem.Some? {
        ProposalsAreCurrent(cfg, front, i);
      }
      if e.Restart? && e.node == i {
        RestartFits(g.nodes[i].chain, g.nodes[i].disk, cfg.size(g.nodes[i].chain));
      }
      if e.Act? && e.node == i && g.nodes[i].mem.Some? && Enabled(cfg, i, g.sent, Up(g.nodes[i]), e.action) {
        PerformFits(cfg, i, g.sent, Up(g.nodes[i]), e.action);
      }
    }
  }

  // Timeliness

  /** A prevote for a block at a position: the node found the block timely in that round, or there were +2/3 prevotes
      for it in an earlier one. */
  ghost predicate JustifiedPrevote(cfg: Config, sent: set<Vote>, judged: set<Verdict>, id: nat, prefix: seq<Hash>,
                                   round: nat, hash: Hash) {
    Timely(id, prefix, round, hash) in judged || PolkaBetween(cfg, sent, prefix, 0, round, hash)
  }

  ghost predicate Justified(cfg: Config, id: nat, sent: set<Vote>, judged: set<Verdict>, s: Local) {
    s.mem.pending.Some? && s.mem.pending.value.kind.PrevoteMessage? && s.mem.pending.value.value.Some? ==>
      JustifiedPrevote(cfg, sent, judged, id, s.chain, s.mem.round, s.mem.pending.value.value.value)
  }

  ghost predicate VotesJustified(cfg: Config, sent: set<Vote>, judged: set<Verdict>) {
    forall v, id :: v in sent && HostedBy(cfg, v, id) && v.kind.PrevoteMessage? && v.value.Some? ==>
      JustifiedPrevote(cfg, sent, judged, id, v.prefix, v.round, v.value.value)
  }

  lemma JustifiedGrows(cfg: Config, sent: set<Vote>, sent': set<Vote>, judged: set<Verdict>, judged': set<Verdict>,
                       id: nat, prefix: seq<Hash>, round: nat, hash: Hash)
    requires sent <= sent' && judged <= judged' && JustifiedPrevote(cfg, sent, judged, id, prefix, round, hash)
    ensures JustifiedPrevote(cfg, sent', judged', id, prefix, round, hash)
  {
    if PolkaBetween(cfg, sent, prefix, 0, round, hash) {
      PolkaBetweenGrows(cfg, sent, sent', prefix, 0, 0, round, hash);
    }
  }

  lemma EarlierPolka(cfg: Config, sent: set<Vote>, chain: seq<Hash>, p: Proposal, round: nat)
    requires HasValidLockProof(cfg, sent, chain, p) && p.validRound.Some? && p.validRound.value < round
    ensures PolkaBetween(cfg, sent, chain, 0, round, p.hash)
  {
    ProofIsQuorum(cfg, sent, PrevoteMessage, chain, p.validRound.value, p.hash, p.lockProof.value);
    assert 0 <= p.validRound.value < round && Polka(cfg, sent, chain, p.validRound.value, p.hash);
  }

  /** A re-proposal that was found valid carries +2/3 prevotes of an earlier round. */
  lemma ReproposalIsJustified(cfg: Config, id: nat, sent: set<Vote>, judged: set<Verdict>, s: Local, r: nat)
    requires LocalInv(cfg, id, sent, s) && s.mem.pending.None?
    ensures Justified(cfg, id, sent, judged, OnProposalLocked(s, r))
  {
    hide HasMajorityFor, PolkaBetween;
    var view := GetRound(s.mem.rounds, r);
    if HasLockedProposal(s, r) && view.result.value {
      var p := view.proposal.value;
      assert TallyInv(cfg, sent, s.chain, r, view);
      EarlierPolka(cfg, sent, s.chain, p, s.mem.round);
    }
  }

  lemma PerformJustifies(cfg: Config, id: nat, sent: set<Vote>, judged: set<Verdict>, s: Local, a: Action)
    requires LocalInv(cfg, id, sent, s) && Justified(cfg, id, sent, judged, s) && Enabled(cfg, id, sent, s, a)
    ensures Justified(cfg, id, sent, judged + Judges(id, s, a), Perform(s, cfg.size(s.chain), a))
  {
    hide LocalInv, HasMajorityFor, HasValidLockProof, ProofVerifies, PolkaBetween;
    if a.Locked? {
      ReproposalIsJustified(cfg, id, sent, judged + Judges(id, s, a), s, a.round);
    }
  }

  lemma EmittedIsJustified(cfg: Config, id: nat, sent: set<Vote>, judged: set<Verdict>, s: Local, a: Action)
    requires VotesJustified(cfg, sent, judged) && Justified(cfg, id, sent, judged, s) && Enabled(cfg, id, sent, s, a)
    ensures VotesJustified(cfg, sent + Emitted(s, a), judged)
  {
    hide JustifiedPrevote;
    var sent' := sent + Emitted(s, a);
    forall v, i | v in sent' && HostedBy(cfg, v, i) && v.kind.PrevoteMessage? && v.value.Some?
      ensures JustifiedPrevote(cfg, sent', judged, i, v.prefix, v.round, v.value.value)
    {
      JustifiedGrows(cfg, sent, sent', judged, judged, i, v.prefix, v.round, v.value.value);
    }
  }

  ghost predicate AllJustified(cfg: Config, g: Global, judged: set<Verdict>) {
    && VotesJustified(cfg, g.sent, judged)
    && forall i :: 0 <= i < |g.nodes| && g.nodes[i].mem.Some? ==> Justified(cfg, i, g.sent, judged, Up(g.nodes[i]))
  }

  lemma AllJustifiedGrow(cfg: Config, g: Global, g': Global, judged: set<Verdict>, judged': set<Verdict>)
    requires AllJustified(cfg, g, judged) && judged <= judged' && g.sent <= g'.sent && |g'.nodes| == |g.nodes|
    requires VotesJustified(cfg, g'.sent, judged')
    requires forall i :: 0 <= i < |g.nodes| && g'.nodes[i].mem.Some? && g'.nodes[i] != g.nodes[i] ==>
      Justified(cfg, i, g.sent, judged', Up(g'.nodes[i]))
    ensures AllJustified(cfg, g', judged')
  {
    hide JustifiedPrevote;
    forall i | 0 <= i < |g'.nodes| && g'.nodes[i].mem.Some?
      ensures Justified(cfg, i, g'.sent, judged', Up(g'.nodes[i]))
    {
      var s := Up(g'.nodes[i]);
      if s.mem.pending.Some? && s.mem.pending.value.kind.PrevoteMessage? && s.mem.pending.value.value.Some? {
        var hash := s.mem.pending.value.value.value;
        if g'.nodes[i] != g.nodes[i] {
          JustifiedGrows(cfg, g.sent, g'.sent, judged', judged', i, s.chain, s.mem.round, hash);
        } else {
          JustifiedGrows(cfg, g.sent, g'.sent, judged, judged', i, s.chain, s.mem.round, hash);
        }
      }
    }
  }

  lemma VotesStayJustified(cfg: Config, sent: set<Vote>, sent': set<Vote>, judged: set<Verdict>, judged': set<Verdict>)
    requires VotesJustified(cfg, sent, judged) && sent <= sent' && judged <= judged'
    requires forall v :: v in sent' && Hosted(cfg, v) ==> v in sent
    ensures VotesJustified(cfg, sent', judged')
  {
    hide JustifiedPrevote;
    forall v, i | v in sent' && HostedBy(cfg, v, i) && v.kind.PrevoteMessage? && v.value.Some?
      ensures JustifiedPrevote(cfg, sent', judged', i, v.prefix, v.round, v.value.value)
    {
      JustifiedGrows(cfg, sent, sent', judged, judged', i, v.prefix, v.round, v.value.value);
    }
  }

  lemma HoldsLocally(cfg: Config, g: Global, i: nat)
    requires Inv(cfg, g) && i < |g.nodes| && g.nodes[i].mem.Some?
    ensures LocalInv(cfg, i, g.sent, Up(g.nodes[i]))
  {
    assert NodeInv(cfg, i, g.sent, g.nodes[i]);
  }

  lemma EmittedStays(cfg: Config, id: nat, sent: set<Vote>, judged: set<Verdict>, judged': set<Verdict>, s: Local,
                     a: Action)
    requires VotesJustified(cfg, sent, judged') && Justified(cfg, id, sent, judged, s) && judged <= judged'
    requires Enabled(cfg, id, sent, s, a)
    ensures VotesJustified(cfg, sent + Emitted(s, a), judged')
  {
    hide JustifiedPrevote, Enabled, VotesJustified, Emitted;
    if s.mem.pending.Some? && s.mem.pending.value.kind.PrevoteMessage? && s.mem.pending.value.value.Some? {
      JustifiedGrows(cfg, sent, sent, judged, judged', id, s.chain, s.mem.round, s.mem.pending.value.value.value);
    }
    EmittedIsJustified(cfg, id, sent, judged', s, a);
  }

  lemma NextJustifies(cfg: Config, g: Global, judged: set<Verdict>, e: Event)
    requires Inv(cfg, g) && AllJustified(cfg, g, judged)
    ensures AllJustified(cfg, Next(cfg, g, e), judged + JudgedBy(cfg, g, e))
  {
    hide Enabled, Perform, Judges, VotesJustified, NodeInv, SentInv;
    var g', judged' := Next(cfg, g, e), judged + JudgedBy(cfg, g, e);
    VotesStayJustified(cfg, g.sent, g.sent, judged, judged');
    if !e.Act? {
      VotesStayJustified(cfg, g.sent, g'.sent, judged, judged');
    } else if e.node < |g.nodes| && g.nodes[e.node].mem.Some? &&
              Enabled(cfg, e.node, g.sent, Up(g.nodes[e.node]), e.action) {
      var s := Up(g.nodes[e.node]);
      HoldsLocally(cfg, g, e.node);
      PerformJustifies(cfg, e.node, g.sent, judged, s, e.action);
      EmittedStays(cfg, e.node, g.sent, judged, judged', s, e.action);
    }
    AllJustifiedGrow(cfg, g, g', judged, judged');
  }

  lemma StartJustifies(cfg: Config)
    ensures AllJustified(cfg, Initial(cfg), {})
  {
  }

  lemma {:induction false} RunJustifies(cfg: Config, events: seq<Event>)
    ensures AllJustified(cfg, Run(cfg, events), Judged(cfg, events))
  {
    hide AllJustified, JudgedBy, Next, Inv;
    if events == [] {
      StartJustifies(cfg);
    } else {
      var front := events[..|events| - 1];
      RunKeeps(cfg, front);
      RunJustifies(cfg, front);
      NextJustifies(cfg, Run(cfg, front), Judged(cfg, front), events[|events| - 1]);
    }
  }

  /** The first round with +2/3 prevotes for a block. */
  lemma {:induction false} FirstPolka(cfg: Config, sent: set<Vote>, prefix: seq<Hash>, round: nat, hash: Hash)
    returns (first: nat)
    requires Polka(cfg, sent, prefix, round, hash)
    ensures first <= round && Polka(cfg, sent, prefix, first, hash) && !PolkaBetween(cfg, sent, prefix, 0, first, hash)
    decreases round
  {
    if PolkaBetween(cfg, sent, prefix, 0, round, hash) {
      var r :| 0 <= r < round && Polka(cfg, sent, prefix, r, hash);
      first := FirstPolka(cfg, sent, prefix, r, hash);
    } else {
      first := round;
    }
  }

  /** The correct validators who prevoted a block in a round. */
  ghost function CorrectPrevoters(cfg: Config, sent: set<Vote>, prefix: seq<Hash>, round: nat, hash: Hash): set<nat> {
    Signers(cfg, sent, PrevoteMessage, prefix, round, Some(hash)) - Byzantine(cfg, prefix)
  }

  /** Every committed block was prevoted in some round by correct validators alone of more than a third of all, each of
      whose nodes found it timely in that round. */
  lemma CommittedIsTimely(cfg: Config, events: seq<Event>, i: nat, k: nat) returns (round: nat)
    requires Resilient(cfg) && i < |Run(cfg, events).nodes| && k < |Run(cfg, events).nodes[i].chain|
    ensures var g := Run(cfg, events);
      var prefix, hash := g.nodes[i].chain[..k], g.nodes[i].chain[k];
      var voters := CorrectPrevoters(cfg, g.sent, prefix, round, hash);
      && IsMinority(|voters|, cfg.size(prefix))
      && forall j :: j in voters ==>
           cfg.host(prefix, j).Some? && Timely(cfg.host(prefix, j).value, prefix, round, hash) in Judged(cfg, events)
  {
    RunKeeps(cfg, events);
    RunJustifies(cfg, events);
    var g := Run(cfg, events);
    assert NodeInv(cfg, i, g.sent, g.nodes[i]);
    var prefix, hash := g.nodes[i].chain[..k], g.nodes[i].chain[k];
    assert Decided(cfg, g.sent, prefix, hash);
    var r :| QuorumFor(cfg, g.sent, PrecommitMessage, prefix, r, hash);
    DecidedHasPolka(cfg, g.sent, prefix, r, hash);
    round := FirstPolka(cfg, g.sent, prefix, r, hash);
    CorrectShare(cfg.size(prefix), Signers(cfg, g.sent, PrevoteMessage, prefix, round, Some(hash)),
                 Byzantine(cfg, prefix));
    hide IsMajority, IsMinority, Polka, PolkaBetween;
    forall j | j in CorrectPrevoters(cfg, g.sent, prefix, round, hash)
      ensures cfg.host(prefix, j).Some? && Timely(cfg.host(prefix, j).value, prefix, round, hash) in Judged(cfg, events)
    {
      var v := Vote(PrevoteMessage, prefix, round, Some(hash), j);
      assert v in g.sent && HostedBy(cfg, v, cfg.host(prefix, j).value);
    }
  }
}
