/** The milestones of a network: sorting and merging them, the moving cursor that looks one up, and the check of the
    number of validators per round. */
module Milestones {
  import opened Wrappers

  /** A milestone as far as rounds depend on it; a number of validators that is not given is taken over from before. */
  datatype Milestone = Milestone(height: nat, roundValidators: Option<nat>)

  datatype Entry = Entry(height: nat, validators: nat)

  ghost predicate Ascending(ms: seq<Milestone>) {
    forall i, j :: 0 <= i < j < |ms| ==> ms[i].height <= ms[j].height
  }

  // Looking up a milestone

  /** The last milestone that is not above `height`. */
  function At(ms: seq<Milestone>, height: nat): Option<Milestone> {
    if ms == [] || ms[0].height > height then None
    else if |ms| > 1 && ms[1].height <= height then At(ms[1..], height)
    else Some(ms[0])
  }

  lemma {:induction false} AtIs(ms: seq<Milestone>, height: nat, i: nat)
    requires Ascending(ms) && i < |ms| && ms[i].height <= height
    requires i + 1 < |ms| ==> height < ms[i + 1].height
    ensures At(ms, height) == Some(ms[i])
    decreases |ms|
  {
    if i == 0 {
    } else {
      assert ms[0].height <= ms[i].height && ms[1].height <= ms[i].height;
      AtIs(ms[1..], height, i - 1);
    }
  }

  predicate IsNew(m: Milestone, height: nat, current: Option<nat>) {
    m.roundValidators.Some? && m.roundValidators.value != 0 && m.roundValidators != current && m.height > height
  }

  function Next(ms: seq<Milestone>, height: nat, current: Option<nat>): (r: Option<Entry>)
    ensures r.Some? ==> r.value.height > height && r.value.validators > 0
    ensures r.Some? ==> exists i :: 0 <= i < |ms| && ms[i].height == r.value.height
  {
    if ms == [] then None
    else if IsNew(ms[0], height, current) then Some(Entry(ms[0].height, ms[0].roundValidators.value))
    else
      var r := Next(ms[1..], height, current);
      assert forall i :: 0 <= i < |ms[1..]| ==> ms[1..][i] == ms[i + 1];
      r
  }

  class Configuration {
    var milestones: seq<Milestone>
    var genesisHeight: nat
    var index: int
    var data: Option<Milestone>

    ghost predicate Valid()
      reads this
    {
      && milestones != [] && Ascending(milestones) && -1 <= index < |milestones|
      && data == if index < 0 then None else Some(milestones[index])
    }

    constructor (milestones: seq<Milestone>, genesisHeight: nat)
      requires milestones != [] && Ascending(milestones)
      ensures Valid() && this.milestones == milestones && this.genesisHeight == genesisHeight
    {
      this.milestones, this.genesisHeight, index, data := milestones, genesisHeight, 0, Some(milestones[0]);
    }

    /** Moves the cursor up or down to the milestone of `height`. Where it stood before makes no difference to the
        answer; below the first milestone there is none. */
    method GetMilestone(height: nat) returns (r: Option<Milestone>)
      requires Valid()
      modifies this`index, this`data
      ensures Valid() && r == At(milestones, height)
      ensures r.Some? <==> height >= milestones[0].height
    {
      while index < |milestones| - 1 && height >= milestones[index + 1].height
        invariant Valid()
        decreases |milestones| - index
      {
        index := index + 1;
        data := Some(milestones[index]);
      }
      if index < 0 {
        return None;
      }
      while height < milestones[index].height
        invariant Valid() && index >= 0
        invariant index < |milestones| - 1 ==> height < milestones[index + 1].height
        decreases index
      {
        index := index - 1;
        if index < 0 {
          data := None;
          return None;
        }
        data := Some(milestones[index]);
      }
      AtIs(milestones, height, index);
      return data;
    }

    /** The first milestone above `previousMilestone` whose number of validators is given, not zero and different from
        the one that holds there. */
    method GetNextMilestoneWithNewKey(previousMilestone: nat) returns (r: Option<Entry>)
      requires Valid() && At(milestones, previousMilestone).Some?
      modifies this`index, this`data
      ensures Valid()
      ensures r == Next(milestones, previousMilestone, At(milestones, previousMilestone).value.roundValidators)
    {
      assert milestones[0..] == milestones;
      ghost var current := At(milestones, previousMilestone).value.roundValidators;
      for i := 0 to |milestones|
        invariant Valid()
        invariant Next(milestones, previousMilestone, current) == Next(milestones[i..], previousMilestone, current)
      {
        var milestone := milestones[i];
        assert milestones[i..][1..] == milestones[i + 1..];
        if milestone.roundValidators.Some? && milestone.roundValidators.value != 0 {
          var here := GetMilestone(previousMilestone);
          if milestone.roundValidators != here.value.roundValidators && milestone.height > previousMilestone {
            return Some(Entry(milestone.height, milestone.roundValidators.value));
          }
        }
      }
      return None;
    }
  }

  // Sorting and merging

  function Insert(m: Milestone, ms: seq<Milestone>): seq<Milestone> {
    if ms == [] || m.height <= ms[0].height then [m] + ms else [ms[0]] + Insert(m, ms[1..])
  }

  function SortByHeight(ms: seq<Milestone>): seq<Milestone> {
    if ms == [] then [] else Insert(ms[0], SortByHeight(ms[1..]))
  }

  lemma {:induction false} InsertPermutes(m: Milestone, ms: seq<Milestone>)
    ensures multiset(Insert(m, ms)) == multiset{m} + multiset(ms)
  {
    if ms == [] || m.height <= ms[0].height {
    } else {
      InsertPermutes(m, ms[1..]);
      assert ms == [ms[0]] + ms[1..];
    }
  }

  lemma {:induction false} InsertAscends(m: Milestone, ms: seq<Milestone>)
    requires Ascending(ms)
    ensures Ascending(Insert(m, ms))
  {
    if ms == [] || m.height <= ms[0].height {
    } else {
      InsertAscends(m, ms[1..]);
      InsertPermutes(m, ms[1..]);
      var rest := Insert(m, ms[1..]);
      forall i | 0 <= i < |rest| ensures ms[0].height <= rest[i].height {
        assert rest[i] in multiset(rest);
        assert rest[i] == m || rest[i] in ms[1..];
      }
    }
  }

  lemma {:induction false} SortAscends(ms: seq<Milestone>)
    ensures Ascending(SortByHeight(ms)) && multiset(SortByHeight(ms)) == multiset(ms)
  {
    if ms == [] {
    } else {
      SortAscends(ms[1..]);
      InsertAscends(ms[0], SortByHeight(ms[1..]));
      InsertPermutes(ms[0], SortByHeight(ms[1..]));
      assert ms == [ms[0]] + ms[1..];
    }
  }

  function Inherited(m: Milestone, carry: Option<nat>): Option<nat> {
    if m.roundValidators.Some? then m.roundValidators else carry
  }

  /** Every milestone takes over what it does not give from the one before. */
  function Merged(ms: seq<Milestone>, carry: Option<nat>): seq<Milestone> {
    if ms == [] then []
    else [Milestone(ms[0].height, Inherited(ms[0], carry))] + Merged(ms[1..], Inherited(ms[0], carry))
  }

  lemma {:induction false} MergedLength(ms: seq<Milestone>, carry: Option<nat>)
    ensures |Merged(ms, carry)| == |ms|
  {
    if ms == [] {
    } else {
      MergedLength(ms[1..], Inherited(ms[0], carry));
    }
  }

  lemma {:induction false} MergedAt(ms: seq<Milestone>, carry: Option<nat>, i: nat)
    requires i < |ms|
    ensures |Merged(ms, carry)| == |ms|
    ensures Merged(ms, carry)[i].height == ms[i].height
    ensures Merged(ms, carry)[i].roundValidators ==
      Inherited(ms[i], if i == 0 then carry else Merged(ms, carry)[i - 1].roundValidators)
  {
    MergedLength(ms, carry);
    if i == 0 {
    } else {
      MergedAt(ms[1..], Inherited(ms[0], carry), i - 1);
    }
  }

  /** Merges each milestone into the next, from the first on. */
  method BuildMilestones(config: seq<Milestone>) returns (milestones: seq<Milestone>)
    ensures milestones == Merged(SortByHeight(config), None)
  {
    milestones := SortByHeight(config);
    ghost var sorted, merged := milestones, Merged(milestones, None);
    MergedLength(sorted, None);
    if sorted != [] {
      MergedAt(sorted, None, 0);
    }
    var lastMerged := 0;
    while lastMerged < |milestones| - 1
      invariant 0 <= lastMerged && (lastMerged < |milestones| || milestones == []) && |milestones| == |sorted|
      invariant forall i :: 0 <= i < |sorted| && i <= lastMerged ==> milestones[i] == merged[i]
      invariant forall i :: lastMerged < i < |sorted| ==> milestones[i] == sorted[i]
    {
      MergedAt(sorted, None, lastMerged + 1);
      var next := milestones[lastMerged + 1];
      milestones := milestones[lastMerged + 1 :=
        Milestone(next.height, Inherited(next, milestones[lastMerged].roundValidators))];
      lastMerged := lastMerged + 1;
    }
  }

  // The check of the numbers of validators

  /** The milestones that give a number of validators. */
  function Entries(ms: seq<Milestone>): seq<Entry> {
    if ms == [] then []
    else if ms[0].roundValidators.Some?
    then [Entry(ms[0].height, ms[0].roundValidators.value)] + Entries(ms[1..])
    else Entries(ms[1..])
  }

  /** A remainder by zero is not a number, and so not zero. */
  predicate Divides(n: nat, x: int) {
    n != 0 && x % n == 0
  }

  predicate FollowsOn(previous: Entry, current: Entry) {
    previous.validators == current.validators || Divides(previous.validators, current.height - previous.height)
  }

  /** Zero for the genesis block alone, a number right behind it, and later changes only where the distance to the entry
      before is a whole number of rounds. */
  ghost predicate Accepted(entries: seq<Entry>, genesis: nat) {
    && (forall i :: 0 <= i < |entries| && entries[i].height > genesis ==> entries[i].validators != 0)
    && |entries| >= 2 && entries[0] == Entry(genesis, 0) && entries[1].height == genesis + 1
    && (forall i :: 2 <= i < |entries| ==> FollowsOn(entries[i - 1], entries[i]))
  }

  method CheckRoundValidators(config: seq<Milestone>, genesis: nat) returns (ok: bool)
    ensures ok <==> Accepted(Entries(SortByHeight(config)), genesis)
  {
    var milestones := Entries(SortByHeight(config));
    for i := 0 to |milestones|
      invariant forall k :: 0 <= k < i && milestones[k].height > genesis ==> milestones[k].validators != 0
    {
      if milestones[i].height > genesis && milestones[i].validators == 0 {
        return false;
      }
    }
    if |milestones| < 1 || milestones[0].height != genesis || milestones[0].validators != 0 {
      return false;
    }
    if |milestones| < 2 || milestones[1].height != genesis + 1 {
      return false;
    }
    for i := 2 to |milestones|
      invariant forall k :: 2 <= k < i ==> FollowsOn(milestones[k - 1], milestones[k])
    {
      var current, previous := milestones[i], milestones[i - 1];
      if previous.validators == current.validators {
        continue;
      }
      if !Divides(previous.validators, current.height - previous.height) {
        return false;
      }
    }
    return true;
  }

  lemma {:induction false} MergedAscends(ms: seq<Milestone>, carry: Option<nat>)
    requires Ascending(ms)
    ensures Ascending(Merged(ms, carry)) && |Merged(ms, carry)| == |ms|
    ensures forall i :: 0 <= i < |ms| ==> Merged(ms, carry)[i].height == ms[i].height
  {
    MergedLength(ms, carry);
    forall i | 0 <= i < |ms| ensures Merged(ms, carry)[i].height == ms[i].height {
      MergedAt(ms, carry, i);
    }
  }

  /** A configuration is built if and only if its numbers of validators pass the check. */
  method SetConfig(config: seq<Milestone>, genesis: nat) returns (r: Option<Configuration>)
    ensures r.Some? <==> Accepted(Entries(SortByHeight(config)), genesis)
    ensures r.Some? ==> fresh(r.value) && r.value.Valid() && r.value.genesisHeight == genesis
    ensures r.Some? ==> r.value.milestones == Merged(SortByHeight(config), None)
  {
    var ok := CheckRoundValidators(config, genesis);
    if !ok {
      return None;
    }
    var milestones := BuildMilestones(config);
    SortAscends(config);
    MergedAscends(SortByHeight(config), None);
    var configuration := new Configuration(milestones, genesis);
    return Some(configuration);
  }

  // The lookups in the merged milestones, in terms of the entries

  ghost predicate AscendingEntries(entries: seq<Entry>) {
    forall i, j :: 0 <= i < j < |entries| ==> entries[i].height <= entries[j].height
  }

  lemma {:induction false} EntriesAscend(ms: seq<Milestone>)
    requires Ascending(ms)
    ensures AscendingEntries(Entries(ms))
    ensures forall i :: 0 <= i < |Entries(ms)| ==> ms != [] && Entries(ms)[i].height >= ms[0].height
  {
    if ms == [] {
    } else {
      EntriesAscend(ms[1..]);
      forall i | 0 <= i < |Entries(ms[1..])| ensures Entries(ms[1..])[i].height >= ms[0].height {
        assert ms[1..][0].height >= ms[0].height;
      }
    }
  }

  /** The number of validators of the last entry that is not above `height`. */
  function ValidatorsAt(entries: seq<Entry>, height: nat, carry: Option<nat>): Option<nat> {
    if entries == [] || entries[0].height > height then carry
    else ValidatorsAt(entries[1..], height, Some(entries[0].validators))
  }

  lemma {:induction false} AllAbove(ms: seq<Milestone>, height: nat, carry: Option<nat>)
    requires Ascending(ms) && (ms == [] || ms[0].height > height)
    ensures ValidatorsAt(Entries(ms), height, carry) == carry
  {
    EntriesAscend(ms);
  }

  /** A merged milestone has the number of validators of the last entry up to it. */
  lemma {:induction false} MergedLookup(ms: seq<Milestone>, height: nat, carry: Option<nat>)
    requires Ascending(ms) && ms != [] && ms[0].height <= height
    ensures At(Merged(ms, carry), height).Some?
    ensures At(Merged(ms, carry), height).value.roundValidators == ValidatorsAt(Entries(ms), height, carry)
  {
    var merged, inherited := Merged(ms, carry), Inherited(ms[0], carry);
    MergedAscends(ms, carry);
    assert merged[1..] == Merged(ms[1..], inherited);
    if |ms| > 1 && ms[1].height <= height {
      MergedLookup(ms[1..], height, inherited);
    } else {
      AllAbove(ms[1..], height, inherited);
    }
  }

  function NextEntry(entries: seq<Entry>, height: nat, n: nat): (r: Option<Entry>)
    ensures r.Some? ==> r.value in entries && r.value.height > height && r.value.validators > 0
    ensures r.Some? ==> r.value.validators != n
  {
    if entries == [] then None
    else if entries[0].validators != 0 && entries[0].validators != n && entries[0].height > height
    then Some(entries[0])
    else NextEntry(entries[1..], height, n)
  }

  /** Only entries are found as new: what is inherited is zero or the number that already holds. */
  lemma {:induction false} NextLookup(ms: seq<Milestone>, height: nat, n: nat, carry: Option<nat>)
    requires Ascending(ms) && ValidatorsAt(Entries(ms), height, carry) in {None, Some(0), Some(n)}
    ensures Next(Merged(ms, carry), height, Some(n)) == NextEntry(Entries(ms), height, n)
  {
    if ms == [] {
    } else {
      var inherited := Inherited(ms[0], carry);
      assert Merged(ms, carry)[1..] == Merged(ms[1..], inherited);
      if ms[0].height > height {
        AllAbove(ms, height, carry);
        AllAbove(ms[1..], height, inherited);
      }
      if !IsNew(Merged(ms, carry)[0], height, Some(n)) {
        NextLookup(ms[1..], height, n, inherited);
      }
    }
  }
}
