/** `Consensus`, its storage service and its bootstrapper as they run: objects whose methods update fields step by
    step. Every method is a run of the actions the network model allows, so what holds of all runs holds of it. */
module ConsensusService {
  import opened Wrappers
  import opened ConsensusTypes
  import opened ConsensusRules
  import opened Network

  class StorageService {
    var blockNumber: nat
    var state: Option<StateData>
    var proposals: map<nat, Proposal>
    var messages: map<Slot, Vote>

    function Contents(): Disk reads this {
      Disk(state, proposals, messages)
    }

    /** Opens the store a crash left behind. */
    constructor (disk: Disk)
      ensures Contents() == disk
      ensures blockNumber == if disk.state.Some? then disk.state.value.blockNumber else 0
    {
      state, proposals, messages := disk.state, disk.proposals, disk.messages;
      blockNumber := if disk.state.Some? then disk.state.value.blockNumber else 0;
    }

    method Prepare(block: nat)
      modifies this
      ensures Contents() == Prepared(old(Contents()), old(blockNumber), block)
      ensures blockNumber == Max(old(blockNumber), block)
    {
      if block > blockNumber {
        proposals, messages, state := map[], map[], None;
      }
      blockNumber := if blockNumber < block then block else blockNumber;
    }

    method PutState(data: StateData)
      modifies this
      ensures Contents() == Prepared(old(Contents()), old(blockNumber), data.blockNumber).(state := Some(data))
      ensures blockNumber == Max(old(blockNumber), data.blockNumber)
    {
      Prepare(data.blockNumber);
      state := Some(data);
    }

    method PutMessage(message: Vote)
      modifies this
      ensures var disk := Prepared(old(Contents()), old(blockNumber), Height(message.prefix));
        Contents() == disk.(messages := disk.messages[Slot(message.round, message.validator, message.kind) := message])
      ensures blockNumber == Max(old(blockNumber), Height(message.prefix))
    {
      Prepare(Height(message.prefix));
      messages := messages[Slot(message.round, message.validator, message.kind) := message];
    }
  }

  // Runs of one node

  ghost function Perform1(cfg: Config, id: nat, s: Local, sent: set<Vote>, a: Action): (Local, set<Vote>) {
    if Enabled(cfg, id, sent, s, a) then (Perform(s, cfg.size(s.chain), a), sent + Emitted(s, a)) else (s, sent)
  }

  /** Local state and votes sent after some actions of one node. */
  ghost function After(cfg: Config, id: nat, s: Local, sent: set<Vote>, actions: seq<Action>): (Local, set<Vote>) {
    if actions == [] then (s, sent)
    else
      var (t, out) := After(cfg, id, s, sent, actions[..|actions| - 1]);
      Perform1(cfg, id, t, out, actions[|actions| - 1])
  }

  lemma {:induction false} AfterAppends(cfg: Config, id: nat, s: Local, sent: set<Vote>, a: seq<Action>, b: seq<Action>)
    ensures var (t, out) := After(cfg, id, s, sent, a); After(cfg, id, s, sent, a + b) == After(cfg, id, t, out, b)
    decreases |b|
  {
    if b == [] {
      assert a + b == a;
    } else {
      AfterAppends(cfg, id, s, sent, a, b[..|b| - 1]);
      assert (a + b)[..|a + b| - 1] == a + b[..|b| - 1];
    }
  }

  lemma AfterOne(cfg: Config, id: nat, s: Local, sent: set<Vote>, a: Action)
    ensures After(cfg, id, s, sent, [a]) == Perform1(cfg, id, s, sent, a)
  {
    assert [a][..0] == [];
  }

  function Events(id: nat, actions: seq<Action>): seq<Event> {
    seq(|actions|, k requires 0 <= k < |actions| => Act(id, actions[k]))
  }

  /** Actions of one node are a run of the whole network in which only that node moves. */
  lemma {:induction false} ActionsAreRuns(cfg: Config, id: nat, events: seq<Event>, actions: seq<Action>)
    requires id < |Run(cfg, events).nodes| && Run(cfg, events).nodes[id].mem.Some?
    ensures var g := Run(cfg, events);
      var (s, sent) := After(cfg, id, Up(g.nodes[id]), g.sent, actions);
      Run(cfg, events + Events(id, actions)) == Global(g.nodes[id := Running(s)], sent)
    decreases |actions|
  {
    hide Enabled, Perform, Emitted;
    var g := Run(cfg, events);
    if actions == [] {
      assert events + Events(id, actions) == events;
      assert g.nodes[id := Running(Up(g.nodes[id]))] == g.nodes;
    } else {
      var front := actions[..|actions| - 1];
      ActionsAreRuns(cfg, id, events, front);
      var all := events + Events(id, actions);
      assert all[..|all| - 1] == events + Events(id, front);
    }
  }

  ghost predicate Leads(cfg: Config, id: nat, s: Local, sent: set<Vote>, actions: seq<Action>, t: Local,
                        sent': set<Vote>) {
    sent <= sent' && After(cfg, id, s, sent, actions) == (t, sent')
  }

  lemma LeadsOn(cfg: Config, id: nat, s: Local, sent: set<Vote>, a: seq<Action>, t: Local, sent': set<Vote>,
                b: seq<Action>, u: Local, sent'': set<Vote>)
    requires Leads(cfg, id, s, sent, a, t, sent') && Leads(cfg, id, t, sent', b, u, sent'')
    ensures Leads(cfg, id, s, sent, a + b, u, sent'')
  {
    AfterAppends(cfg, id, s, sent, a, b);
  }

  lemma LeadsNowhere(cfg: Config, id: nat, s: Local, sent: set<Vote>)
    ensures Leads(cfg, id, s, sent, [], s, sent)
  {
  }

  lemma LeadsByOne(cfg: Config, id: nat, s: Local, sent: set<Vote>, a: Action)
    requires Enabled(cfg, id, sent, s, a)
    ensures Leads(cfg, id, s, sent, [a], Perform(s, cfg.size(s.chain), a), sent + Emitted(s, a))
  {
    AfterOne(cfg, id, s, sent, a);
  }

  lemma LeadsSilently(cfg: Config, id: nat, s: Local, sent: set<Vote>, a: Action)
    requires Enabled(cfg, id, sent, s, a) && !a.Sign?
    ensures Leads(cfg, id, s, sent, [a], Perform(s, cfg.size(s.chain), a), sent)
  {
    LeadsByOne(cfg, id, s, sent, a);
    assert sent + Emitted(s, a) == sent;
  }

  /** What is decided outside the consensus: whether a payload can be read, whether lock proof and block of a proposal
      are valid on a chain, and whether a block is from the future. */
  datatype Oracle = Oracle(readable: Proposal -> bool, accepted: (seq<Hash>, Proposal) -> bool, future: Hash -> bool)

  /** Accepting a proposal includes verifying its lock proof. */
  ghost predicate Sound(cfg: Config, sent: set<Vote>, oracle: Oracle) {
    forall chain, p :: oracle.accepted(chain, p) ==> HasValidLockProof(cfg, sent, chain, p)
  }

  lemma SoundGrows(cfg: Config, sent: set<Vote>, sent': set<Vote>, oracle: Oracle)
    requires Sound(cfg, sent, oracle) && sent <= sent'
    ensures Sound(cfg, sent', oracle)
  {
    forall chain, p | oracle.accepted(chain, p) ensures HasValidLockProof(cfg, sent', chain, p) {
      assert HasValidLockProof(cfg, sent, chain, p);
    }
  }

  predicate Idle(view: RoundView) {
    view == EMPTY_ROUND
  }

  lemma IdleRoundsDoNothing(n: nat)
    ensures !HasMajorityPrevotes(EMPTY_ROUND, n) && !HasMajorityPrevotesNull(EMPTY_ROUND, n)
    ensures !HasMajorityPrecommits(EMPTY_ROUND, n) && !HasMinorityPrevotesOrPrecommits(EMPTY_ROUND, n)
  {
    assert Voters(map[], None) == {};
  }

  /** A vote this node is to sign: it holds the key of the validator, who has no such vote in the round yet. */
  predicate Owes(cfg: Config, id: nat, view: RoundView, vote: Vote) {
    cfg.host(vote.prefix, vote.validator) == Some(id) && !HasMessage(view, vote)
  }

  /** Of the first `k` validators, everyone whose vote is owed has signed it. */
  ghost predicate Signed(cfg: Config, id: nat, view: RoundView, vote: Vote, k: nat, sent: set<Vote>) {
    forall i :: 0 <= i < k && Owes(cfg, id, view, vote.(validator := i)) ==> vote.(validator := i) in sent
  }

  lemma SignedNext(cfg: Config, id: nat, view: RoundView, vote: Vote, k: nat, sent: set<Vote>, sent': set<Vote>)
    requires Signed(cfg, id, view, vote, k, sent) && sent <= sent'
    requires Owes(cfg, id, view, vote.(validator := k)) ==> vote.(validator := k) in sent'
    ensures Signed(cfg, id, view, vote, k + 1, sent')
  {
  }

  ghost predicate OnlyOwed(cfg: Config, id: nat, view: RoundView, vote: Vote, sent: set<Vote>, sent': set<Vote>) {
    forall v :: v in sent' && v !in sent ==>
      v == vote.(validator := v.validator) && v.validator < cfg.size(v.prefix) && Owes(cfg, id, view, v)
  }

  lemma SignedNone(cfg: Config, id: nat, view: RoundView, vote: Vote, sent: set<Vote>)
    ensures Signed(cfg, id, view, vote, 0, sent) && OnlyOwed(cfg, id, view, vote, sent, sent)
  {
  }

  lemma OnlyOwedNext(cfg: Config, id: nat, view: RoundView, vote: Vote, sent: set<Vote>, sent': set<Vote>, v: Vote)
    requires OnlyOwed(cfg, id, view, vote, sent, sent')
    requires v == vote.(validator := v.validator) && v.validator < cfg.size(v.prefix) && Owes(cfg, id, view, v)
    ensures OnlyOwed(cfg, id, view, vote, sent, sent' + {v})
  {
  }

  /** Signing a vote at the pending position and storing it are two actions. */
  lemma SigningLeads(cfg: Config, id: nat, start: Local, sent0: set<Vote>, done: seq<Action>, s: Local, sent: set<Vote>,
                     message: Vote)
    requires Leads(cfg, id, start, sent0, done, s, sent) && s.mem.pending.Some?
    requires message.kind == s.mem.pending.value.kind && message.value == s.mem.pending.value.value
    requires message.prefix == s.chain && message.round == s.mem.round && message.validator < cfg.size(s.chain)
    requires cfg.host(s.chain, message.validator) == Some(id)
    ensures Leads(cfg, id, start, sent0, done + [Sign(message.validator)] + [StoreMessage(message)],
                  SaveMessage(s, message), sent + {message})
  {
    var i, after := message.validator, sent + {message};
    LeadsByOne(cfg, id, s, sent, Sign(i));
    LeadsSilently(cfg, id, s, after, StoreMessage(message));
    hide Leads, Enabled;
    LeadsOn(cfg, id, start, sent0, done, s, sent, [Sign(i)], s, after);
    LeadsOn(cfg, id, start, sent0, done + [Sign(i)], s, after, [StoreMessage(message)], SaveMessage(s, message), after);
  }

  /** Exactly these votes were added to the ones sent: that of every validator this node holds the key of and that has
      none in the round yet. */
  ghost predicate Votes(cfg: Config, id: nat, view: RoundView, vote: Vote, sent: set<Vote>, sent': set<Vote>) {
    sent <= sent' && Signed(cfg, id, view, vote, cfg.size(vote.prefix), sent') &&
    OnlyOwed(cfg, id, view, vote, sent, sent')
  }

  class Consensus {
    const cfg: Config
    const id: nat
    const storage: StorageService
    var chain: seq<Hash>
    var round: nat
    var step: Step
    var lockedValue: Option<Lock>
    var validValue: Option<Lock>
    var didMajorityPrevote: bool
    var didMajorityPrecommit: bool
    var rounds: map<nat, RoundView>
    ghost var pending: Option<Ballot>
    ghost var sent: set<Vote>

    ghost function View(): Local reads this, storage {
      Local(chain, storage.Contents(),
            Memory(round, step, lockedValue, validValue, didMajorityPrevote, didMajorityPrecommit, rounds,
                   storage.blockNumber, pending))
    }

    constructor (cfg: Config, id: nat, storage: StorageService, s: Local, ghost sent: set<Vote>)
      requires storage.Contents() == s.disk && storage.blockNumber == s.mem.storeBlock && s.mem.pending.None?
      ensures View() == s && this.sent == sent && this.cfg == cfg && this.id == id && this.storage == storage
    {
      this.cfg, this.id, this.storage, this.chain := cfg, id, storage, s.chain;
      round, step, lockedValue, validValue := s.mem.round, s.mem.step, s.mem.locked, s.mem.valid;
      didMajorityPrevote, didMajorityPrecommit := s.mem.didMajorityPrevote, s.mem.didMajorityPrecommit;
      rounds, pending, this.sent := s.mem.rounds, None, sent;
    }

    method PersistState()
      modifies storage
      ensures View() == SaveState(old(View()))
    {
      storage.PutState(StateData(Height(chain), round, step, RoundOf(lockedValue), RoundOf(validValue)));
    }

    /** Signs and stores the vote of every validator this node holds that has none in the round yet. A crash may fall
        before, between or after the signatures: the position is on disk already. */
    method SignVotes(kind: MessageType, value: Option<Hash>) returns (ghost done: seq<Action>)
      requires pending.None? && storage.blockNumber >= Height(chain)
      modifies this`pending, this`sent, storage
      ensures Leads(cfg, id, Cast(old(View()), kind, value), old(sent), done, View(), sent)
      ensures pending.None? && View() == old(View()).(disk := storage.Contents())
      ensures Votes(cfg, id, GetRound(rounds, round), Vote(kind, chain, round, value, 0), old(sent), sent)
    {
      hide Signed, OnlyOwed, HasMessage, Leads;
      pending := Some(Ballot(kind, value));
      done := [];
      ghost var start, sent0 := View(), sent;
      LeadsNowhere(cfg, id, start, sent0);
      var view := GetRound(rounds, round);
      SignedNone(cfg, id, view, Vote(kind, chain, round, value, 0), sent);
      for i := 0 to cfg.size(chain)
        invariant Leads(cfg, id, start, sent0, done, View(), sent)
        invariant View() == start.(disk := storage.Contents())
        invariant Signed(cfg, id, view, Vote(kind, chain, round, value, 0), i, sent)
        invariant OnlyOwed(cfg, id, view, Vote(kind, chain, round, value, 0), sent0, sent)
      {
        ghost var all := sent;
        var message := Vote(kind, chain, round, value, i);
        if cfg.host(chain, i) == Some(id) && !HasMessage(view, message) {
          ghost var s, before := View(), sent;
          OnlyOwedNext(cfg, id, view, Vote(kind, chain, round, value, 0), sent0, sent, message);
          SigningLeads(cfg, id, start, sent0, done, s, before, message);
          sent := sent + {message};
          storage.PutMessage(message);
          done := done + [Sign(i)] + [StoreMessage(message)];
        }
        SignedNext(cfg, id, view, Vote(kind, chain, round, value, 0), i, all, sent);
      }
      ghost var s := View();
      pending := None;
      LeadsSilently(cfg, id, s, sent, FinishVoting);
      LeadsOn(cfg, id, start, sent0, done, s, sent, [FinishVoting], View(), sent);
      done := done + [FinishVoting];
    }

    /** The rule `a` decided a vote at the position just stored: cast it. */
    method Decide(ghost s: Local, ghost a: Action, kind: MessageType, value: Option<Hash>)
      returns (ghost done: seq<Action>)
      requires pending.None? && storage.blockNumber >= Height(chain)
      requires !a.Sign? && Enabled(cfg, id, sent, s, a)
      requires Perform(s, cfg.size(s.chain), a) == Cast(View(), kind, value)
      modifies this`pending, this`sent, storage
      ensures Leads(cfg, id, s, old(sent), done, View(), sent)
      ensures pending.None? && View() == old(View()).(disk := storage.Contents())
      ensures Votes(cfg, id, GetRound(rounds, round), Vote(kind, chain, round, value, 0), old(sent), sent)
    {
      hide Votes;
      ghost var t, before := Cast(View(), kind, value), sent;
      LeadsSilently(cfg, id, s, sent, a);
      done := SignVotes(kind, value);
      LeadsOn(cfg, id, s, before, [a], t, before, done, View(), sent);
      done := [a] + done;
    }

    method OnProposal(r: nat, fromFuture: bool) returns (ghost done: seq<Action>)
      requires pending.None?
      modifies this, storage
      ensures Leads(cfg, id, old(View()), old(sent), done, View(), sent)
      ensures View().chain == old(chain)
      ensures View().mem == ConsensusRules.OnProposal(old(View()), r, fromFuture).mem.(pending := None)
      ensures pending.None? && rounds == old(rounds) && round == old(round) && (step.Propose? ==> old(step).Propose?)
      ensures !HasFreshProposal(View(), r)
      ensures var view := GetRound(old(rounds), r);
        if old(step).Propose? && r == old(round) && view.proposal.Some? && view.proposal.value.validRound.None? &&
           view.result.Some?
        then
          var value := if !fromFuture && old(lockedValue).None? && view.result.value
                       then Some(view.proposal.value.hash) else None;
          Votes(cfg, id, view, Vote(PrevoteMessage, chain, r, value, 0), old(sent), sent)
        else sent == old(sent) && View() == old(View())
    {
      hide Votes;
      done := [];
      var view := GetRound(rounds, r);
      ghost var s := View();
      if !(step == Step.Propose && r == round && view.proposal.Some? && view.proposal.value.validRound.None? &&
           view.result.Some?) {
        return;
      }
      step := Step.Prevote;
      PersistState();
      if lockedValue.Some? {
        done := Decide(s, Fresh(r, fromFuture), PrevoteMessage, None);
        return;
      }
      if fromFuture {
        done := Decide(s, Fresh(r, fromFuture), PrevoteMessage, None);
        return;
      }
      done := Decide(s, Fresh(r, fromFuture), PrevoteMessage,
                     if view.result.value then Some(view.proposal.value.hash) else None);
    }

    method OnProposalLocked(r: nat) returns (ghost done: seq<Action>)
      requires pending.None?
      modifies this, storage
      ensures Leads(cfg, id, old(View()), old(sent), done, View(), sent)
      ensures View().chain == old(chain)
      ensures View().mem == ConsensusRules.OnProposalLocked(old(View()), r).mem.(pending := None)
      ensures pending.None? && rounds == old(rounds) && round == old(round) && (step.Propose? ==> old(step).Propose?)
      ensures !HasLockedProposal(View(), r)
      ensures var view := GetRound(old(rounds), r);
        if old(step).Propose? && r == old(round) && view.proposal.Some? && view.proposal.value.lockProof.Some? &&
           view.proposal.value.validRound.Some? && view.proposal.value.validRound.value < r && view.result.Some?
        then
          var p, lock := view.proposal.value, old(lockedValue);
          var allowed := lock.None? || lock.value.round <= p.validRound.value || lock.value.hash == p.hash;
          var value := if allowed && view.result.value then Some(p.hash) else None;
          Votes(cfg, id, view, Vote(PrevoteMessage, chain, r, value, 0), old(sent), sent)
        else sent == old(sent) && View() == old(View())
    {
      hide Votes;
      done := [];
      var view := GetRound(rounds, r);
      ghost var s := View();
      if !(step == Step.Propose && r == round && view.proposal.Some? && view.proposal.value.lockProof.Some? &&
           view.proposal.value.validRound.Some? && view.proposal.value.validRound.value < round &&
           view.result.Some?) {
        return;
      }
      step := Step.Prevote;
      PersistState();
      var p := view.proposal.value;
      var isAllowedByLock := lockedValue.None? || lockedValue.value.round <= p.validRound.value ||
        lockedValue.value.hash == p.hash;
      if isAllowedByLock && view.result.value {
        done := Decide(s, Locked(r), PrevoteMessage, Some(p.hash));
      } else {
        done := Decide(s, Locked(r), PrevoteMessage, None);
      }
    }

    method OnMajorityPrevote(r: nat) returns (ghost done: seq<Action>)
      requires pending.None? && HasMajorityPrevotes(GetRound(rounds, r), cfg.size(chain))
      modifies this, storage
      ensures Leads(cfg, id, old(View()), old(sent), done, View(), sent)
      ensures View().chain == old(chain)
      ensures View().mem == ConsensusRules.OnMajorityPrevote(old(View()), r, cfg.size(chain)).mem.(pending := None)
      ensures pending.None? && rounds == old(rounds) && round == old(round) && (step.Propose? ==> old(step).Propose?)
      ensures !IsPrevoted(View(), r, cfg.size(chain))
      ensures var view := GetRound(old(rounds), r);
        if !old(didMajorityPrevote) && old(step).Prevote? && r == old(round) && view.result == Some(true)
        then
          && lockedValue == validValue == Some(Lock(r, view.proposal.value.hash)) && step.Precommit?
          && Votes(cfg, id, view, Vote(PrecommitMessage, chain, r, Some(view.proposal.value.hash), 0), old(sent), sent)
        else sent == old(sent) && lockedValue == old(lockedValue) && step == old(step)
      ensures old(step).Precommit? && !old(didMajorityPrevote) && r == old(round) &&
              GetRound(old(rounds), r).result == Some(true) ==>
        validValue == Some(Lock(r, GetRound(old(rounds), r).proposal.value.hash))
    {
      hide Votes, Leads, HasMajorityFor, Emitted, Signed;
      LeadsNowhere(cfg, id, View(), sent);
      done := [];
      var view := GetRound(rounds, r);
      ghost var s := View();
      if !(!didMajorityPrevote && step != Step.Propose && r == round && view.result == Some(true)) {
        return;
      }
      didMajorityPrevote := true;
      if step == Step.Prevote {
        lockedValue := Some(Lock(r, view.proposal.value.hash));
        validValue := Some(Lock(r, view.proposal.value.hash));
        step := Step.Precommit;
        PersistState();
        done := Decide(s, MajorityPrevote(r), PrecommitMessage, Some(view.proposal.value.hash));
      } else {
        validValue := Some(Lock(r, view.proposal.value.hash));
        PersistState();
        LeadsSilently(cfg, id, s, sent, MajorityPrevote(r));
        done := [MajorityPrevote(r)];
      }
    }

    method OnMajorityPrevoteNull(r: nat) returns (ghost done: seq<Action>)
      requires pending.None? && HasMajorityPrevotesNull(GetRound(rounds, r), cfg.size(chain))
      modifies this, storage
      ensures Leads(cfg, id, old(View()), old(sent), done, View(), sent)
      ensures View().chain == old(chain)
      ensures View().mem == ConsensusRules.OnMajorityPrevoteNull(old(View()), r, cfg.size(chain)).mem.(pending := None)
      ensures pending.None? && rounds == old(rounds) && round == old(round) && (step.Propose? ==> old(step).Propose?)
      ensures !IsPrevotedNull(View(), r, cfg.size(chain))
      ensures IsPrevoted(View(), r, cfg.size(chain)) ==> old(IsPrevoted(View(), r, cfg.size(chain)))
      ensures lockedValue == old(lockedValue) && validValue == old(validValue)
      ensures if old(step).Prevote? && r == old(round)
              then Votes(cfg, id, GetRound(rounds, r), Vote(PrecommitMessage, chain, r, None, 0), old(sent), sent)
              else sent == old(sent)
    {
      hide Votes;
      done := [];
      ghost var s := View();
      if !(step == Step.Prevote && r == round) {
        return;
      }
      step := Step.Precommit;
      PersistState();
      done := Decide(s, MajorityPrevoteNull(r), PrecommitMessage, None);
    }

    method OnTimeoutPropose(blockNumber: nat, r: nat) returns (ghost done: seq<Action>)
      requires pending.None?
      modifies this, storage
      ensures Leads(cfg, id, old(View()), old(sent), done, View(), sent)
      ensures View().mem == ConsensusRules.OnTimeoutPropose(old(View()), blockNumber, r).mem.(pending := None)
      ensures chain == old(chain) && rounds == old(rounds)
      ensures if old(step).Propose? && blockNumber == |old(chain)| + 1 && old(round) == r
              then Votes(cfg, id, GetRound(rounds, r), Vote(PrevoteMessage, chain, r, None, 0), old(sent), sent)
              else sent == old(sent)
    {
      hide Votes;
      done := [];
      ghost var s := View();
      if !(step == Step.Propose && Height(chain) == blockNumber && round == r) {
        return;
      }
      step := Step.Prevote;
      PersistState();
      done := Decide(s, TimeoutPropose(blockNumber, r), PrevoteMessage, None);
    }

    method OnTimeoutPrevote(blockNumber: nat, r: nat) returns (ghost done: seq<Action>)
      requires pending.None?
      modifies this, storage
      ensures Leads(cfg, id, old(View()), old(sent), done, View(), sent)
      ensures View().mem == ConsensusRules.OnTimeoutPrevote(old(View()), blockNumber, r).mem.(pending := None)
      ensures chain == old(chain) && rounds == old(rounds)
      ensures if old(step).Prevote? && blockNumber == |old(chain)| + 1 && old(round) == r
              then Votes(cfg, id, GetRound(rounds, r), Vote(PrecommitMessage, chain, r, None, 0), old(sent), sent)
              else sent == old(sent)
    {
      hide Votes;
      done := [];
      ghost var s := View();
      if !(step == Step.Prevote && Height(chain) == blockNumber && round == r) {
        return;
      }
      step := Step.Precommit;
      PersistState();
      done := Decide(s, TimeoutPrevote(blockNumber, r), PrecommitMessage, None);
    }

    method ProcessProposal(r: nat, oracle: Oracle) returns (ghost done: seq<Action>)
      requires pending.None? && Sound(cfg, sent, oracle)
      modifies this`rounds
      ensures Leads(cfg, id, old(View()), old(sent), done, View(), sent)
      ensures if Idle(GetRound(old(rounds), r)) then rounds == old(rounds) else !Idle(GetRound(rounds, r))
      ensures IsProcessed(View(), r)
      ensures var view, p := GetRound(old(rounds), r), GetRound(old(rounds), r).proposal;
        if view.result.None? && p.Some?
        then GetRound(rounds, r).result == Some(oracle.readable(p.value) && oracle.accepted(chain, p.value)) &&
             GetRound(rounds, r).proposal == p
        else rounds == old(rounds)
    {
      done := [];
      var view := GetRound(rounds, r);
      ghost var s := View();
      if view.result.None? && view.proposal.Some? {
        var readable, accepted := oracle.readable(view.proposal.value), oracle.accepted(chain, view.proposal.value);
        rounds := rounds[r := view.(deserialized := view.deserialized || readable,
                                    result := Some(readable && accepted))];
        LeadsSilently(cfg, id, s, sent, Process(r, readable, accepted));
        done := [Process(r, readable, accepted)];
      }
    }

    /** Enters a round and applies its rules: it may already hold its proposal and votes. */
    method StartRound(r: nat, oracle: Oracle) returns (ghost done: seq<Action>)
      requires pending.None? && Sound(cfg, sent, oracle)
      modifies this, storage
      ensures pending.None?
      ensures Leads(cfg, id, ConsensusRules.StartRound(old(View()), r), old(sent), done, View(), sent)
      ensures old(chain) <= chain
      ensures chain == old(chain) ==> r <= round
      ensures Idle(GetRound(old(rounds), r)) ==>
        && round == r && step.Propose? && !didMajorityPrevote && !didMajorityPrecommit && sent == old(sent)
        && chain == old(chain) && rounds == old(rounds) && lockedValue == old(lockedValue)
        && validValue == old(validValue)
      ensures chain == old(chain) ==> Quiet(View(), r, cfg.size(chain))
      ensures chain != old(chain) ==> rounds == map[]
      decreases if Idle(GetRound(rounds, r)) then 0 else 1, 3
    {
      round, step := r, Step.Propose;
      didMajorityPrevote, didMajorityPrecommit := false, false;
      if r > 0 {
        PersistState();
      }
      done := ApplyRules(Height(chain), r, oracle);
    }

    method OnMajorityPrecommit(r: nat, oracle: Oracle) returns (ghost done: seq<Action>)
      requires pending.None? && Sound(cfg, sent, oracle)
      requires HasMajorityPrecommits(GetRound(rounds, r), cfg.size(chain))
      modifies this, storage
      ensures pending.None?
      ensures Leads(cfg, id, old(View()), old(sent), done, View(), sent)
      ensures old(chain) <= chain
      ensures if chain == old(chain) then View() == old(View()).(mem := old(View()).mem.(didMajorityPrecommit := true))
              else rounds == map[]
      ensures var view := GetRound(old(rounds), r);
        !old(didMajorityPrecommit) && view.result == Some(true) ==> chain == old(chain) + [view.proposal.value.hash]
      decreases 1, 1
    {
      done := [];
      ghost var s := View();
      if didMajorityPrecommit {
        return;
      }
      LeadsSilently(cfg, id, s, sent, MajorityPrecommit(r));
      didMajorityPrecommit := true;
      var view := GetRound(rounds, r);
      if view.result != Some(true) {
        return [MajorityPrecommit(r)];
      }
      done := CommitBlock(view.proposal.value.hash, s, MajorityPrecommit(r), oracle);
    }

    /** Commits a block that rule `a` found decided and starts round 0 of the next height. */
    method CommitBlock(hash: Hash, ghost s: Local, ghost a: Action, oracle: Oracle) returns (ghost done: seq<Action>)
      requires pending.None? && Sound(cfg, sent, oracle)
      requires Leads(cfg, id, s, sent, [a], Commit(View(), hash), sent)
      modifies this, storage
      ensures pending.None?
      ensures Leads(cfg, id, s, old(sent), done, View(), sent)
      ensures chain == old(chain) + [hash] && round == 0 && step.Propose? && rounds == map[]
      ensures lockedValue.None? && validValue.None? && sent == old(sent)
      decreases 1, 0
    {
      ghost var t, before := Commit(View(), hash), sent;
      chain := chain + [hash];
      rounds := map[];
      lockedValue, validValue := None, None;
      done := StartRound(0, oracle);
      LeadsOn(cfg, id, s, before, [a], t, before, done, View(), sent);
      done := [a] + done;
    }

    method OnMinorityWithHigherRound(r: nat, oracle: Oracle) returns (ghost done: seq<Action>)
      requires pending.None? && Sound(cfg, sent, oracle)
      requires HasMinorityPrevotesOrPrecommits(GetRound(rounds, r), cfg.size(chain))
      modifies this, storage
      ensures pending.None?
      ensures Leads(cfg, id, old(View()), old(sent), done, View(), sent)
      ensures old(chain) <= chain
      ensures if chain == old(chain) then old(round) <= round && r <= round else rounds == map[]
      ensures if r <= old(round) then View() == old(View())
              else chain == old(chain) ==> Quiet(View(), r, cfg.size(chain))
      decreases if r > round then 2 else 0, 1
    {
      done := [];
      if r <= round {
        return;
      }
      ghost var s, before := View(), sent;
      LeadsSilently(cfg, id, s, sent, HigherRound(r));
      ghost var t := ConsensusRules.StartRound(s, r);
      done := StartRound(r, oracle);
      LeadsOn(cfg, id, s, before, [HigherRound(r)], t, before, done, View(), sent);
      done := [HigherRound(r)] + done;
    }

    /** The rules a proposal triggers. */
    method ApplyProposalRules(r: nat, oracle: Oracle) returns (ghost done: seq<Action>)
      requires pending.None? && Sound(cfg, sent, oracle)
      modifies this, storage
      ensures pending.None? && chain == old(chain) && round == old(round)
      ensures Leads(cfg, id, old(View()), old(sent), done, View(), sent)
      ensures if Idle(GetRound(old(rounds), r)) then rounds == old(rounds) else !Idle(GetRound(rounds, r))
      ensures Idle(GetRound(old(rounds), r)) ==> View() == old(View()) && sent == old(sent)
      ensures IsProcessed(View(), r) && !HasFreshProposal(View(), r) && !HasLockedProposal(View(), r)
    {
      hide ConsensusRules.OnProposal, ConsensusRules.OnProposalLocked, Leads;
      ghost var s0, sent0 := View(), sent;
      done := ProcessProposal(r, oracle);
      ghost var s, before := View(), sent;
      var proposal := GetRound(rounds, r).proposal;
      ghost var more := OnProposal(r, proposal.Some? && oracle.future(proposal.value.hash));
      LeadsOn(cfg, id, s0, sent0, done, s, before, more, View(), sent);
      done := done + more;
      s, before := View(), sent;
      more := OnProposalLocked(r);
      LeadsOn(cfg, id, s0, sent0, done, s, before, more, View(), sent);
      done := done + more;
    }

    /** The rules +2/3 prevotes trigger. */
    method ApplyPrevoteRules(r: nat) returns (ghost done: seq<Action>)
      requires pending.None?
      modifies this, storage
      ensures pending.None? && chain == old(chain) && round == old(round) && rounds == old(rounds)
      ensures Leads(cfg, id, old(View()), old(sent), done, View(), sent)
      ensures Idle(GetRound(rounds, r)) ==> View() == old(View()) && sent == old(sent)
      ensures step.Propose? ==> old(step).Propose?
      ensures !IsPrevoted(View(), r, cfg.size(chain)) && !IsPrevotedNull(View(), r, cfg.size(chain))
    {
      hide ConsensusRules.OnMajorityPrevote, ConsensusRules.OnMajorityPrevoteNull;
      IdleRoundsDoNothing(cfg.size(chain));
      ghost var s0, sent0 := View(), sent;
      done := [];
      if HasMajorityPrevotes(GetRound(rounds, r), cfg.size(chain)) {
        done := OnMajorityPrevote(r);
      }
      if HasMajorityPrevotesNull(GetRound(rounds, r), cfg.size(chain)) {
        ghost var s, before := View(), sent;
        ghost var more := OnMajorityPrevoteNull(r);
        LeadsOn(cfg, id, s0, sent0, done, s, before, more, View(), sent);
        done := done + more;
      }
    }

    /** Runs every rule on one round state, in the order of the source. A rule may commit the block or enter a higher
        round, which runs the rules again there. This always comes to an end, and unless a block was committed no rule
        is left to fire. */
    method ApplyRules(blockNumber: nat, r: nat, oracle: Oracle) returns (ghost done: seq<Action>)
      requires pending.None? && Sound(cfg, sent, oracle)
      modifies this, storage
      ensures pending.None?
      ensures Leads(cfg, id, old(View()), old(sent), done, View(), sent)
      ensures old(chain) <= chain
      ensures chain == old(chain) ==> old(round) <= round
      ensures Idle(GetRound(old(rounds), r)) ==> View() == old(View()) && sent == old(sent)
      ensures chain != old(chain) ==> rounds == map[]
      ensures chain == old(chain) && blockNumber == Height(chain) ==> Quiet(View(), r, cfg.size(chain))
      decreases if Idle(GetRound(rounds, r)) then 0 else if r <= round then 1 else 2, 2
    {
      done := [];
      if blockNumber != Height(chain) {
        return;
      }
      IdleRoundsDoNothing(cfg.size(chain));
      ghost var s0, sent0 := View(), sent;
      done := ApplyProposalRules(r, oracle);
      ghost var s1, sent1 := View(), sent;
      ghost var prevoted := ApplyPrevoteRules(r);
      LeadsOn(cfg, id, s0, sent0, done, s1, sent1, prevoted, View(), sent);
      done := done + prevoted;
      SoundGrows(cfg, sent0, sent, oracle);
      if HasMajorityPrecommits(GetRound(rounds, r), cfg.size(chain)) {
        ghost var s, before := View(), sent;
        ghost var more := OnMajorityPrecommit(r, oracle);
        LeadsOn(cfg, id, s0, sent0, done, s, before, more, View(), sent);
        done := done + more;
      }
      if blockNumber == Height(chain) && HasMinorityPrevotesOrPrecommits(GetRound(rounds, r), cfg.size(chain)) {
        SoundGrows(cfg, sent0, sent, oracle);
        ghost var s, before := View(), sent;
        ghost var more := OnMinorityWithHigherRound(r, oracle);
        LeadsOn(cfg, id, s0, sent0, done, s, before, more, View(), sent);
        done := done + more;
      }
    }

    method HandleCommitState(blockNumber: nat, r: nat, hash: Hash, proof: seq<bool>, accepted: bool, oracle: Oracle)
      returns (ghost done: seq<Action>)
      requires pending.None? && Sound(cfg, sent, oracle)
      requires blockNumber == Height(chain) ==> ProofVerifies(cfg, sent, PrecommitMessage, chain, r, hash, proof)
      modifies this, storage
      ensures pending.None?
      ensures Leads(cfg, id, old(View()), old(sent), done, View(), sent)
      ensures old(chain) <= chain
      ensures chain == if blockNumber == |old(chain)| + 1 && accepted then old(chain) + [hash] else old(chain)
    {
      done := [];
      if blockNumber != Height(chain) || !accepted {
        return;
      }
      ghost var s := View();
      LeadsSilently(cfg, id, s, sent, CommitState(r, hash, proof, accepted));
      done := CommitBlock(hash, s, CommitState(r, hash, proof, accepted), oracle);
    }

    method OnTimeoutPrecommit(blockNumber: nat, r: nat, oracle: Oracle) returns (ghost done: seq<Action>)
      requires pending.None? && Sound(cfg, sent, oracle)
      modifies this, storage
      ensures pending.None?
      ensures Leads(cfg, id, old(View()), old(sent), done, View(), sent)
      ensures old(chain) <= chain
      ensures blockNumber == |old(chain)| + 1 && old(round) == r && chain == old(chain) ==> round > r
      ensures blockNumber == |old(chain)| + 1 && old(round) == r && Idle(GetRound(old(rounds), r + 1)) ==>
        chain == old(chain) && round == r + 1 && step.Propose? && lockedValue == old(lockedValue) && sent == old(sent)
      ensures !(blockNumber == |old(chain)| + 1 && old(round) == r) ==> View() == old(View()) && sent == old(sent)
    {
      done := [];
      if !(Height(chain) == blockNumber && round == r) {
        return;
      }
      ghost var s, before := View(), sent;
      LeadsSilently(cfg, id, s, sent, TimeoutPrecommit(blockNumber, r));
      ghost var t := ConsensusRules.StartRound(s, r + 1);
      done := StartRound(r + 1, oracle);
      LeadsOn(cfg, id, s, before, [TimeoutPrecommit(blockNumber, r)], t, before, done, View(), sent);
      done := [TimeoutPrecommit(blockNumber, r)] + done;
    }
  }
}
