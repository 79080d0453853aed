/** What the network promises over every run: correct nodes never commit different blocks, whatever the Byzantine
    validators send and whenever nodes crash. */
module Agreement {
  import opened Wrappers
  import opened Quorum
  import opened ConsensusTypes
  import opened ConsensusRules
  import opened Network
  import opened Safety

  /** A correct validator among the signers of two quorums of the same prefix. */
  lemma CommonSigner(cfg: Config, sent: set<Vote>, prefix: seq<Hash>, k: MessageType, r: nat, v: Hash,
                     k': MessageType, r': nat, v': Hash) returns (i: nat)
    requires Resilient(cfg)
    requires QuorumFor(cfg, sent, k, prefix, r, v) && QuorumFor(cfg, sent, k', prefix, r', v')
    ensures i < cfg.size(prefix) && cfg.host(prefix, i).Some?
    ensures Vote(k, prefix, r, Some(v), i) in sent && Vote(k', prefix, r', Some(v'), i) in sent
  {
    i := MajoritiesShareCorrect(cfg.size(prefix), Signers(cfg, sent, k, prefix, r, Some(v)),
                                Signers(cfg, sent, k', prefix, r', Some(v')), Byzantine(cfg, prefix));
  }

  /** Two +2/3 majorities of one round never name different blocks. */
  lemma OnePolkaPerRound(cfg: Config, sent: set<Vote>, kind: MessageType, prefix: seq<Hash>, round: nat, v: Hash,
                         w: Hash)
    requires Resilient(cfg) && NoEquivocation(cfg, sent)
    requires QuorumFor(cfg, sent, kind, prefix, round, v) && QuorumFor(cfg, sent, kind, prefix, round, w)
    ensures v == w
  {
    var i := CommonSigner(cfg, sent, prefix, kind, round, v, kind, round, w);
    assert SameBallot(Vote(kind, prefix, round, Some(v), i), Vote(kind, prefix, round, Some(w), i));
  }

  lemma DecidedHasPolka(cfg: Config, sent: set<Vote>, prefix: seq<Hash>, round: nat, v: Hash)
    requires Resilient(cfg) && SentInv(cfg, sent)
    requires QuorumFor(cfg, sent, PrecommitMessage, prefix, round, v)
    ensures Polka(cfg, sent, prefix, round, v)
  {
    var i := CommonSigner(cfg, sent, prefix, PrecommitMessage, round, v, PrecommitMessage, round, v);
    assert Hosted(cfg, Vote(PrecommitMessage, prefix, round, Some(v), i));
  }

  /** Once +2/3 precommitted `v` in a round, that round and every later one gather +2/3 prevotes only for `v`. */
  lemma {:induction false} DecisionIsFinal(cfg: Config, sent: set<Vote>, prefix: seq<Hash>, round: nat, v: Hash,
                                           later: nat, w: Hash)
    requires Resilient(cfg) && SentInv(cfg, sent)
    requires QuorumFor(cfg, sent, PrecommitMessage, prefix, round, v)
    requires round <= later && Polka(cfg, sent, prefix, later, w)
    ensures w == v
    decreases later
  {
    DecidedHasPolka(cfg, sent, prefix, round, v);
    if round == later {
      OnePolkaPerRound(cfg, sent, PrevoteMessage, prefix, round, v, w);
    } else {
      var i := CommonSigner(cfg, sent, prefix, PrecommitMessage, round, v, PrevoteMessage, later, w);
      var precommit := Vote(PrecommitMessage, prefix, round, Some(v), i);
      var prevote := Vote(PrevoteMessage, prefix, later, Some(w), i);
      assert Hosted(cfg, precommit) && LaterPrevote(precommit, prevote);
      var r :| round <= r < later && Polka(cfg, sent, prefix, r, w);
      DecisionIsFinal(cfg, sent, prefix, round, v, r, w);
    }
  }

  /** On one prefix, whatever the rounds, only one block is ever decided. */
  lemma OneDecision(cfg: Config, sent: set<Vote>, prefix: seq<Hash>, v: Hash, w: Hash)
    requires Resilient(cfg) && SentInv(cfg, sent)
    requires Decided(cfg, sent, prefix, v) && Decided(cfg, sent, prefix, w)
    ensures v == w
  {
    var r :| QuorumFor(cfg, sent, PrecommitMessage, prefix, r, v);
    var r' :| QuorumFor(cfg, sent, PrecommitMessage, prefix, r', w);
    DecidedHasPolka(cfg, sent, prefix, r, v);
    DecidedHasPolka(cfg, sent, prefix, r', w);
    if r <= r' {
      DecisionIsFinal(cfg, sent, prefix, r, v, r', w);
    } else {
      DecisionIsFinal(cfg, sent, prefix, r', w, r, v);
    }
  }

  lemma {:induction false} SameChains(cfg: Config, sent: set<Vote>, c: seq<Hash>, d: seq<Hash>, k: nat)
    requires Resilient(cfg) && SentInv(cfg, sent)
    requires ChainDecided(cfg, sent, c) && ChainDecided(cfg, sent, d)
    requires k <= |c| && k <= |d|
    ensures c[..k] == d[..k]
  {
    if k == 0 {
    } else {
      SameChains(cfg, sent, c, d, k - 1);
      assert Decided(cfg, sent, c[..k - 1], c[k - 1]) && Decided(cfg, sent, d[..k - 1], d[k - 1]);
      OneDecision(cfg, sent, c[..k - 1], c[k - 1], d[k - 1]);
      assert c[..k] == c[..k - 1] + [c[k - 1]] && d[..k] == d[..k - 1] + [d[k - 1]];
    }
  }

  lemma NodesAgree(cfg: Config, g: Global, i: nat, j: nat)
    requires Resilient(cfg) && Inv(cfg, g)
    requires i < |g.nodes| && j < |g.nodes|
    ensures g.nodes[i].chain <= g.nodes[j].chain || g.nodes[j].chain <= g.nodes[i].chain
  {
    assert NodeInv(cfg, i, g.sent, g.nodes[i]) && NodeInv(cfg, j, g.sent, g.nodes[j]);
    var c, d := g.nodes[i].chain, g.nodes[j].chain;
    SameChains(cfg, g.sent, c, d, if |c| <= |d| then |c| else |d|);
  }

  /** After every run, the committed chains of any two nodes agree on all the heights both have reached. */
  lemma ChainsAgree(cfg: Config, events: seq<Event>, i: nat, j: nat)
    requires Resilient(cfg)
    requires i < |Run(cfg, events).nodes| && j < |Run(cfg, events).nodes|
    ensures Run(cfg, events).nodes[i].chain <= Run(cfg, events).nodes[j].chain ||
            Run(cfg, events).nodes[j].chain <= Run(cfg, events).nodes[i].chain
  {
    RunKeeps(cfg, events);
    NodesAgree(cfg, Run(cfg, events), i, j);
  }

  /** No run, with crashes at any point, makes a correct validator sign two different votes for one ballot. */
  lemma NeverEquivocates(cfg: Config, events: seq<Event>, v: Vote, w: Vote)
    requires v in Run(cfg, events).sent && w in Run(cfg, events).sent
    requires SameBallot(v, w) && cfg.host(v.prefix, v.validator).Some?
    ensures v == w
  {
    RunKeeps(cfg, events);
    assert Hosted(cfg, v);
  }

  // Positions

  ghost predicate Later(c: seq<Hash>, disk: Disk, c': seq<Hash>, disk': Disk) {
    var rec, rec' := Recorded(c, disk), Recorded(c', disk');
    && c <= c'
    && (c == c' ==>
          && NotAfter(rec.round, rec.step, rec'.round, rec'.step)
          && (rec.lockedRound.Some? ==> rec'.lockedRound.Some? && rec.lockedRound.value <= rec'.lockedRound.value))
  }

  lemma StateMovesOn(s: Local, n: nat, a: Action)
    requires WellFormed(StateOf(s))
    ensures var t := Perform(s, n, a);
      && s.chain <= t.chain
      && (s.chain == t.chain ==>
            && NotAfter(s.mem.round, s.mem.step, t.mem.round, t.mem.step)
            && !Unlocks(s.mem.locked, t.mem.locked))
  {
  }

  lemma PerformMovesOn(cfg: Config, id: nat, sent: set<Vote>, s: Local, t: Local, a: Action)
    requires SentInv(cfg, sent) && LocalInv(cfg, id, sent, s) && Enabled(cfg, id, sent, s, a)
    requires t == Perform(s, cfg.size(s.chain), a)
    ensures Later(s.chain, s.disk, t.chain, t.disk)
  {
    PerformKeeps(cfg, id, sent, s, a);
    StateMovesOn(s, cfg.size(s.chain), a);
    assert MemoryInv(cfg, id, sent, t);
  }

  lemma NextMovesOn(cfg: Config, g: Global, e: Event, i: nat)
    requires Inv(cfg, g) && i < |g.nodes|
    ensures |Next(cfg, g, e).nodes| == |g.nodes|
    ensures var node, node' := g.nodes[i], Next(cfg, g, e).nodes[i];
      Later(node.chain, node.disk, node'.chain, node'.disk)
  {
    if e.Act? && e.node == i && g.nodes[i].mem.Some? && Enabled(cfg, i, g.sent, Up(g.nodes[i]), e.action) {
      assert NodeInv(cfg, i, g.sent, g.nodes[i]);
      PerformMovesOn(cfg, i, g.sent, Up(g.nodes[i]), Up(Next(cfg, g, e).nodes[i]), e.action);
    }
  }

  /** Along every run the chain of a node only grows, and within a height its stored position and lock only move up. */
  lemma {:induction false} PositionsGrow(cfg: Config, events: seq<Event>, more: seq<Event>, i: nat)
    requires i < |Run(cfg, events).nodes|
    ensures |Run(cfg, events + more).nodes| == |Run(cfg, events).nodes|
    ensures var node, node' := Run(cfg, events).nodes[i], Run(cfg, events + more).nodes[i];
      Later(node.chain, node.disk, node'.chain, node'.disk)
    decreases |more|
  {
    if more == [] {
      assert events + more == events;
    } else {
      var front, last := more[..|more| - 1], more[|more| - 1];
      PositionsGrow(cfg, events, front, i);
      RunKeeps(cfg, events + front);
      assert (events + more)[..|events + more| - 1] == events + front;
      NextMovesOn(cfg, Run(cfg, events + front), last, i);
    }
  }

  // Recovery

  lemma SameLock(cfg: Config, id: nat, sent: set<Vote>, s: Local, t: Local, a: Option<Lock>, b: Option<Lock>)
    requires Resilient(cfg) && SentInv(cfg, sent)
    requires MemoryInv(cfg, id, sent, s) && MemoryInv(cfg, id, sent, t) && s.chain == t.chain
    requires RoundOf(a) == RoundOf(b)
    requires a.Some? ==> Backed(cfg, s, a.value)
    requires b.Some? ==> Backed(cfg, t, b.value)
    ensures a == b
  {
    if a.Some? {
      BackedIsPolka(cfg, id, sent, s, a.value);
      BackedIsPolka(cfg, id, sent, t, b.value);
      OnePolkaPerRound(cfg, sent, PrevoteMessage, s.chain, a.value.round, a.value.hash, b.value.hash);
    }
  }

  lemma RestoredIsSame(cfg: Config, id: nat, sent: set<Vote>, before: Local, after: Local)
    requires Resilient(cfg) && SentInv(cfg, sent) && LocalInv(cfg, id, sent, before)
    requires Bootstrap(before.chain, before.disk, cfg.size(before.chain)) == Ok(after)
    ensures after.mem.locked == before.mem.locked && after.mem.valid == before.mem.valid
    ensures after.mem.round == before.mem.round && after.mem.step == before.mem.step
  {
    RestartKeeps(cfg, id, sent, before.chain, before.disk);
    assert StateOf(after) == StateOf(before);
    SameLock(cfg, id, sent, before, after, before.mem.locked, after.mem.locked);
    SameLock(cfg, id, sent, before, after, before.mem.valid, after.mem.valid);
  }

  /** A node that crashed, however long it was down, restarts at the very position, valid value and locked block it
      had, or refuses to start. The stored record is never ahead of the chain. */
  lemma RecoversLock(cfg: Config, events: seq<Event>, more: seq<Event>, i: nat)
    requires Resilient(cfg)
    requires i < |Run(cfg, events).nodes| && i < |Run(cfg, events + more).nodes|
    requires Run(cfg, events).nodes[i].mem.Some?
    requires Run(cfg, events + more).nodes[i] == Run(cfg, events).nodes[i].(mem := None)
    ensures var before := Run(cfg, events).nodes[i];
      before.disk.state.Some? ==> before.disk.state.value.blockNumber <= Height(before.chain)
    ensures i < |Run(cfg, events + more + [Restart(i)]).nodes|
    ensures var before, after := Run(cfg, events).nodes[i].mem.value, Run(cfg, events + more + [Restart(i)]).nodes[i];
      after.mem.Some? ==>
        && after.mem.value.locked == before.locked && after.mem.value.valid == before.valid
        && after.mem.value.round == before.round && after.mem.value.step == before.step
  {
    RunKeeps(cfg, events);
    var g := Run(cfg, events);
    assert NodeInv(cfg, i, g.sent, g.nodes[i]);
    var all := events + more + [Restart(i)];
    assert all[..|all| - 1] == events + more;
    var before := Up(g.nodes[i]);
    var restored := Bootstrap(before.chain, before.disk, cfg.size(before.chain));
    if restored.Ok? {
      RestoredIsSame(cfg, i, g.sent, before, restored.value);
    }
  }

  // Re-proposals

  /** The flags `Aggregator.aggregate` sets for the prevotes of a round state for one block. */
  function AggregatedFlags(votes: map<nat, Option<Hash>>, hash: Hash, n: nat): seq<bool> {
    seq(n, i => i in votes && votes[i] == Some(hash))
  }

  /** The proposal `#createProposal` builds from the valid value. */
  function Reproposal(s: Local, valid: Lock, n: nat): Proposal {
    Proposal(Height(s.chain), s.mem.round, valid.hash, Some(valid.round),
             Some(AggregatedFlags(GetRound(s.mem.rounds, valid.round).prevotes, valid.hash, n)))
  }

  /** In every run, the proposal a proposer builds from its valid value passes the factory's pairing and ordering
      checks, its lock proof is a majority, and that proof verifies at every node on the same chain. */
  lemma ReproposalsAreWellFormed(cfg: Config, events: seq<Event>, i: nat)
    requires i < |Run(cfg, events).nodes| && Run(cfg, events).nodes[i].mem.Some?
    ensures var m := Run(cfg, events).nodes[i].mem.value;
      && (m.locked.Some? ==> m.valid.Some? && m.locked.value.round <= m.valid.value.round)
      && (m.valid.Some? ==> m.valid.value.round <= m.round)
    ensures var g := Run(cfg, events);
      var s := Up(g.nodes[i]);
      var n := cfg.size(s.chain);
      s.mem.valid.Some? && !s.mem.step.Precommit? ==>
        && Paired(Reproposal(s, s.mem.valid.value, n)) && s.mem.valid.value.round < s.mem.round
        && HasMajorityFor(GetRound(s.mem.rounds, s.mem.valid.value.round).prevotes, Some(s.mem.valid.value.hash), n)
        && HasValidLockProof(cfg, g.sent, s.chain, Reproposal(s, s.mem.valid.value, n))
  {
    RunKeeps(cfg, events);
    var g := Run(cfg, events);
    assert NodeInv(cfg, i, g.sent, g.nodes[i]);
    var s := Up(g.nodes[i]);
    assert WellFormed(StateOf(s));
    if s.mem.valid.Some? && !s.mem.step.Precommit? {
      var valid := s.mem.valid.value;
      var view := GetRound(s.mem.rounds, valid.round);
      assert TallyInv(cfg, g.sent, s.chain, valid.round, view);
      var flags := AggregatedFlags(view.prevotes, valid.hash, cfg.size(s.chain));
      assert Flagged(flags) == Voters(view.prevotes, Some(valid.hash));
    }
  }

  /** A node skips to a higher round only after a correct validator voted in that round. */
  lemma SkippedRoundsAreLive(cfg: Config, events: seq<Event>, i: nat, round: nat) returns (v: Vote)
    requires Resilient(cfg)
    requires i < |Run(cfg, events).nodes| && Run(cfg, events).nodes[i].mem.Some?
    requires var s := Up(Run(cfg, events).nodes[i]);
      OnMinorityWithHigherRound(s, round, cfg.size(s.chain)) != s
    ensures v in Run(cfg, events).sent && v.prefix == Run(cfg, events).nodes[i].chain && v.round == round
    ensures cfg.host(v.prefix, v.validator).Some?
  {
    RunKeeps(cfg, events);
    var g := Run(cfg, events);
    assert NodeInv(cfg, i, g.sent, g.nodes[i]);
    var s := Up(g.nodes[i]);
    var n := cfg.size(s.chain);
    var view := GetRound(s.mem.rounds, round);
    if IsMinority(|view.prevotes|, n) {
      var k := MinorityHoldsCorrect(n, view.prevotes.Keys, Byzantine(cfg, s.chain));
      v := Vote(PrevoteMessage, s.chain, round, view.prevotes[k], k);
    } else {
      var k := MinorityHoldsCorrect(n, view.precommits.Keys, Byzantine(cfg, s.chain));
      v := Vote(PrecommitMessage, s.chain, round, view.precommits[k], k);
    }
  }
}
