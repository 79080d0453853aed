/** Vote tallies and their proofs: `RoundState` keeps a counter per block hash beside the votes themselves, and
    `Aggregator` turns the votes of one block into flags. */
module RoundStates {
  import opened Wrappers
  import opened Quorum
  import opened ConsensusTypes
  import opened Network

  function CountOf(counts: map<Option<Hash>, nat>, value: Option<Hash>): nat {
    if value in counts then counts[value] else 0
  }

  /** Every counter is the number of stored votes with that hash. */
  ghost predicate CountsAgree(votes: map<nat, Option<Hash>>, counts: map<Option<Hash>, nat>) {
    forall value :: CountOf(counts, value) == |Voters(votes, value)|
  }

  function Counted(counts: map<Option<Hash>, nat>, value: Option<Hash>): map<Option<Hash>, nat> {
    counts[value := CountOf(counts, value) + 1]
  }

  lemma CountedAgrees(votes: map<nat, Option<Hash>>, counts: map<Option<Hash>, nat>, i: nat, value: Option<Hash>)
    requires CountsAgree(votes, counts) && i !in votes
    ensures CountsAgree(votes[i := value], Counted(counts, value))
  {
    forall other ensures CountOf(Counted(counts, value), other) == |Voters(votes[i := value], other)| {
      if other == value {
        assert Voters(votes[i := value], value) == Voters(votes, value) + {i};
      } else {
        assert Voters(votes[i := value], other) == Voters(votes, other);
      }
    }
  }

  /** Assigning past the end of a flag array leaves the skipped entries unset. */
  function SetFlag(flags: seq<bool>, i: nat): seq<bool> {
    if i < |flags| then flags[i := true] else flags + seq(i - |flags|, _ => false) + [true]
  }

  ghost predicate FlagsAgree(votes: map<nat, Option<Hash>>, flags: seq<bool>) {
    Flagged(flags) == votes.Keys
  }

  lemma SetFlagAgrees(votes: map<nat, Option<Hash>>, flags: seq<bool>, i: nat, value: Option<Hash>)
    requires FlagsAgree(votes, flags)
    ensures FlagsAgree(votes[i := value], SetFlag(flags, i))
  {
    var set_ := SetFlag(flags, i);
    forall k: nat ensures k in Flagged(set_) <==> k in votes.Keys + {i} {
      if i >= |flags| && k < |set_| {
        assert set_[k] == if k < |flags| then flags[k] else k == i;
      }
      assert k in Flagged(flags) <==> k in votes.Keys;
    }
    assert votes[i := value].Keys == votes.Keys + {i};
  }

  ghost predicate Aggregatable(votes: map<nat, Option<Hash>>, hash: Hash, n: nat) {
    HasMajorityFor(votes, Some(hash), n) && Below(Voters(votes, Some(hash)), n)
  }

  /** Everyone voted for the value but fewer than a third of the validators. */
  ghost predicate VotedByCorrect(votes: map<nat, Option<Hash>>, value: Option<Hash>, n: nat, faulty: set<nat>) {
    3 * |faulty| < n && forall i: nat :: i < n && i !in faulty ==> i in votes && votes[i] == value
  }

  /** Whoever does not vote, fewer than a third cannot stop the others from being a majority. */
  lemma CorrectVotesDecide(votes: map<nat, Option<Hash>>, value: Option<Hash>, n: nat, faulty: set<nat>)
    requires VotedByCorrect(votes, value, n, faulty)
    ensures HasMajorityFor(votes, value, n)
  {
    CorrectAreMajority(n, Voters(votes, value), faulty);
  }

  lemma CorrectAlwaysDecide(votes: map<nat, Option<Hash>>, n: nat)
    ensures forall value, faulty :: VotedByCorrect(votes, value, n, faulty) ==> HasMajorityFor(votes, value, n)
  {
    hide VotedByCorrect, HasMajorityFor;
    forall value, faulty | VotedByCorrect(votes, value, n, faulty) ensures HasMajorityFor(votes, value, n) {
      CorrectVotesDecide(votes, value, n, faulty);
    }
  }

  /** The validators whose vote is for this block. */
  method GetSignatures(messages: map<nat, Option<Hash>>, hash: Hash) returns (filtered: set<nat>)
    ensures filtered == Voters(messages, Some(hash))
  {
    filtered := {};
    var left := messages.Keys;
    while left != {}
      invariant left <= messages.Keys
      invariant forall i :: i in filtered <==> i in messages.Keys - left && messages[i] == Some(hash)
      decreases left
    {
      var i :| i in left;
      if messages[i] == Some(hash) {
        filtered := filtered + {i};
      }
      left := left - {i};
    }
  }

  /** Flags exactly the signers, if they are +2/3 and all in range. */
  method Aggregate(signatures: set<nat>, roundValidators: nat) returns (r: Result<seq<bool>>)
    ensures r.Ok? <==> IsMajority(|signatures|, roundValidators) && Below(signatures, roundValidators)
    ensures r.Ok? ==> |r.value| == roundValidators && Flagged(r.value) == signatures
  {
    if !IsMajority(|signatures|, roundValidators) {
      return Err("Failed to aggregate signatures, because the majority is not reached.");
    }
    var validators := seq(roundValidators, _ => false);
    var left := signatures;
    while left != {}
      invariant left <= signatures
      invariant |validators| == roundValidators && Flagged(validators) == signatures - left
      decreases left
    {
      var i :| i in left;
      if i >= roundValidators {
        return Err("Failed to aggregate signatures, because validator index is out of range.");
      }
      var before := validators;
      validators := validators[i := true];
      assert Flagged(validators) == Flagged(before) + {i};
      left := left - {i};
    }
    assert signatures - left == signatures;
    r := Ok(validators);
  }

  class RoundState {
    const blockNumber: nat
    const round: nat
    const roundValidators: nat
    var proposal: Option<Proposal>
    var deserialized: bool
    var processorResult: Option<bool>
    var prevotes: map<nat, Option<Hash>>
    var prevotesCount: map<Option<Hash>, nat>
    var precommits: map<nat, Option<Hash>>
    var precommitsCount: map<Option<Hash>, nat>
    var validatorsSignedPrevote: seq<bool>
    var validatorsSignedPrecommit: seq<bool>

    ghost predicate Valid() reads this {
      && CountsAgree(prevotes, prevotesCount) && CountsAgree(precommits, precommitsCount)
      && FlagsAgree(prevotes, validatorsSignedPrevote) && FlagsAgree(precommits, validatorsSignedPrecommit)
    }

    function View(): RoundView reads this {
      RoundView(proposal, deserialized, processorResult, prevotes, precommits)
    }

    constructor (blockNumber: nat, round: nat, roundValidators: nat)
      ensures Valid() && View() == EMPTY_ROUND
      ensures this.blockNumber == blockNumber && this.round == round && this.roundValidators == roundValidators
    {
      this.blockNumber, this.round, this.roundValidators := blockNumber, round, roundValidators;
      proposal, deserialized, processorResult := None, false, None;
      prevotes, prevotesCount, precommits, precommitsCount := map[], map[], map[], map[];
      validatorsSignedPrevote := seq(roundValidators, _ => false);
      validatorsSignedPrecommit := seq(roundValidators, _ => false);
    }

    /** Fails on a second proposal, like the exception of the source. */
    method AddProposal(p: Proposal) returns (ok: bool)
      requires Valid()
      modifies this
      ensures Valid() && ok == old(proposal.None?)
      ensures View() == if ok then old(View()).(proposal := Some(p)) else old(View())
    {
      ok := proposal.None?;
      if ok {
        proposal := Some(p);
      }
    }

    /** Fails on a second prevote of the same validator. */
    method AddPrevote(i: nat, value: Option<Hash>) returns (ok: bool)
      requires Valid()
      modifies this
      ensures Valid() && ok == (i !in old(prevotes))
      ensures View() == if ok then old(View()).(prevotes := old(prevotes)[i := value]) else old(View())
    {
      ok := i !in prevotes;
      if ok {
        CountedAgrees(prevotes, prevotesCount, i, value);
        SetFlagAgrees(prevotes, validatorsSignedPrevote, i, value);
        prevotes := prevotes[i := value];
        validatorsSignedPrevote := SetFlag(validatorsSignedPrevote, i);
        prevotesCount := Counted(prevotesCount, value);
      }
    }

    method AddPrecommit(i: nat, value: Option<Hash>) returns (ok: bool)
      requires Valid()
      modifies this
      ensures Valid() && ok == (i !in old(precommits))
      ensures View() == if ok then old(View()).(precommits := old(precommits)[i := value]) else old(View())
    {
      ok := i !in precommits;
      if ok {
        CountedAgrees(precommits, precommitsCount, i, value);
        SetFlagAgrees(precommits, validatorsSignedPrecommit, i, value);
        precommits := precommits[i := value];
        validatorsSignedPrecommit := SetFlag(validatorsSignedPrecommit, i);
        precommitsCount := Counted(precommitsCount, value);
      }
    }

    /** The counters decide exactly what counting the votes would. */
    method Majorities() returns (prevoted: bool, prevotedNull: bool, precommitted: bool, minority: bool)
      requires Valid()
      ensures prevoted == HasMajorityPrevotes(View(), roundValidators)
      ensures prevotedNull == HasMajorityPrevotesNull(View(), roundValidators)
      ensures precommitted == HasMajorityPrecommits(View(), roundValidators)
      ensures minority == HasMinorityPrevotesOrPrecommits(View(), roundValidators)
      ensures proposal.Some? && deserialized ==>
        forall faulty :: VotedByCorrect(prevotes, Some(proposal.value.hash), roundValidators, faulty) ==> prevoted
      ensures forall faulty :: VotedByCorrect(prevotes, None, roundValidators, faulty) ==> prevotedNull
      ensures proposal.Some? && deserialized ==>
        forall faulty :: VotedByCorrect(precommits, Some(proposal.value.hash), roundValidators, faulty) ==> precommitted
    {
      hide VotedByCorrect;
      CorrectAlwaysDecide(prevotes, roundValidators);
      CorrectAlwaysDecide(precommits, roundValidators);
      prevoted := proposal.Some? && deserialized &&
        IsMajority(CountOf(prevotesCount, Some(proposal.value.hash)), roundValidators);
      prevotedNull := IsMajority(CountOf(prevotesCount, None), roundValidators);
      precommitted := proposal.Some? && deserialized &&
        IsMajority(CountOf(precommitsCount, Some(proposal.value.hash)), roundValidators);
      minority := IsMinority(|prevotes|, roundValidators) || IsMinority(|precommits|, roundValidators);
    }

    /** +2/3 precommits for some block while its proposal never arrived; precommits for nil do not count. */
    method HasMajorityPrecommitsWithoutProposal() returns (found: bool)
      requires Valid()
      ensures found <==> proposal.None? && exists hash :: HasMajorityFor(precommits, Some(hash), roundValidators)
    {
      if proposal.Some? {
        return false;
      }
      var left := precommitsCount.Keys;
      while left != {}
        invariant left <= precommitsCount.Keys
        invariant forall hash :: Some(hash) in precommitsCount && Some(hash) !in left ==>
          !HasMajorityFor(precommits, Some(hash), roundValidators)
        decreases left
      {
        var value :| value in left;
        if value.Some? && IsMajority(precommitsCount[value], roundValidators) {
          assert HasMajorityFor(precommits, Some(value.value), roundValidators) by {
            assert CountOf(precommitsCount, value) == |Voters(precommits, value)|;
          }
          return true;
        }
        assert CountOf(precommitsCount, value) == |Voters(precommits, value)|;
        left := left - {value};
      }
      forall hash ensures !HasMajorityFor(precommits, Some(hash), roundValidators) {
        assert CountOf(precommitsCount, Some(hash)) == |Voters(precommits, Some(hash))|;
      }
      return false;
    }

    /** Succeeds exactly when the proposed block has +2/3 of the prevotes, all from round validators. */
    method AggregatePrevotes() returns (r: Result<seq<bool>>)
      requires Valid()
      ensures r.Ok? <==> proposal.Some? && Aggregatable(prevotes, proposal.value.hash, roundValidators)
      ensures r.Ok? ==> |r.value| == roundValidators && Flagged(r.value) == Voters(prevotes, Some(proposal.value.hash))
    {
      if proposal.None? {
        return Err("Expected proposal to be defined");
      }
      var signatures := GetSignatures(prevotes, proposal.value.hash);
      r := Aggregate(signatures, roundValidators);
    }

    method AggregatePrecommits() returns (r: Result<seq<bool>>)
      requires Valid()
      ensures r.Ok? <==> proposal.Some? && Aggregatable(precommits, proposal.value.hash, roundValidators)
      ensures r.Ok? ==>
        |r.value| == roundValidators && Flagged(r.value) == Voters(precommits, Some(proposal.value.hash))
    {
      if proposal.None? {
        return Err("Expected proposal to be defined");
      }
      var signatures := GetSignatures(precommits, proposal.value.hash);
      r := Aggregate(signatures, roundValidators);
    }
  }

  lemma {:induction false} FlaggedPrefix(flags: seq<bool>, k: nat)
    requires k < |flags|
    ensures |Flagged(flags[..k + 1])| == |Flagged(flags[..k])| + if flags[k] then 1 else 0
  {
    assert Flagged(flags[..k + 1]) == Flagged(flags[..k]) + if flags[k] then {k} else {};
  }

  /** `signed` are the validators who really signed the data: the signature check passes iff all flagged ones did. */
  method Verify(flags: seq<bool>, roundValidators: nat, signed: set<nat>) returns (ok: bool)
    ensures ok <==>
      |flags| == roundValidators && IsMajority(|Flagged(flags)|, roundValidators) && Flagged(flags) <= signed
  {
    if |flags| != roundValidators {
      return false;
    }
    var publicKeys: seq<nat> := [];
    for i := 0 to |flags|
      invariant |publicKeys| == |Flagged(flags[..i])|
      invariant forall k :: k in publicKeys <==> k in Flagged(flags[..i])
    {
      FlaggedPrefix(flags, i);
      if flags[i] {
        publicKeys := publicKeys + [i];
      }
      assert Flagged(flags[..i + 1]) == Flagged(flags[..i]) + if flags[i] then {i} else {};
    }
    assert flags[..|flags|] == flags;
    if !IsMajority(|publicKeys|, roundValidators) {
      return false;
    }
    ok := forall k | k in publicKeys :: k in signed;
  }

  /** At most one of all block hashes and nil has a majority in one tally, whoever the voters are. */
  lemma OneMajorityPerTally(votes: map<nat, Option<Hash>>, n: nat, v: Option<Hash>, w: Option<Hash>)
    requires Below(votes.Keys, n)
    requires HasMajorityFor(votes, v, n) && HasMajorityFor(votes, w, n)
    ensures v == w
  {
    if v != w {
      DisjointNotBothMajority(n, Voters(votes, v), Voters(votes, w));
    }
  }
}
