/** Validator rounds: stretches of heights with the same number of validators are cut into rounds of that length. */
module Rounds {
  import opened Wrappers
  import opened Arithmetic
  import opened Milestones

  datatype Span = Span(startHeight: nat, endHeight: Option<nat>, startRound: nat, roundValidators: nat)

  datatype RoundInfo = RoundInfo(maxValidators: nat, nextRound: nat, round: nat, roundHeight: nat)

  // The spans

  function Top(entries: seq<Entry>): (r: nat)
    ensures forall e :: e in entries ==> e.height <= r
  {
    if entries == [] then 0
    else
      var rest := Top(entries[1..]);
      assert entries == [entries[0]] + entries[1..];
      if entries[0].height > rest then entries[0].height else rest
  }

  /** The number of validators the milestones give for a height. */
  function Configured(entries: seq<Entry>, height: nat): nat {
    match ValidatorsAt(entries, height, None)
    case None => 0
    case Some(n) => n
  }

  /** The spans from `start` on, where a round has `n` validators; `None` where a change does not fall on the start of a
      round. */
  function SpansFrom(entries: seq<Entry>, start: nat, round: nat, n: nat): Option<seq<Span>>
    decreases if Top(entries) > start then Top(entries) - start else 0
  {
    match NextEntry(entries, start, Configured(entries, start))
    case None => Some([Span(start, None, round, n)])
    case Some(next) =>
      if !Divides(n, next.height - start) then None
      else
        QuotientBounds(next.height - start, n);
        match SpansFrom(entries, next.height, round + (next.height - start) / n, next.validators)
        case None => None
        case Some(spans) => Some([Span(start, Some(next.height - 1), round, n)] + spans)
  }

  /** All spans of a configuration. */
  function Spans(entries: seq<Entry>, genesis: nat): Option<seq<Span>> {
    SpansFrom(entries, genesis + 1, 1, Configured(entries, genesis + 1))
  }

  ghost function Before(spans: seq<Span>, more: Option<seq<Span>>): Option<seq<Span>> {
    match more
    case None => None
    case Some(later) => Some(spans + later)
  }

  lemma BeforeNone(more: Option<seq<Span>>)
    ensures Before([], more) == more
  {
    if more.Some? {
      assert [] + more.value == more.value;
    }
  }

  lemma BeforeNothing(spans: seq<Span>)
    ensures Before(spans, None) == None
  {
  }

  lemma BeforeLast(spans: seq<Span>, last: Span)
    ensures Before(spans, Some([last])) == Some(spans + [last])
  {
  }

  lemma BeforeByOne(spans: seq<Span>, span: Span, more: Option<seq<Span>>)
    ensures Before(spans, Before([span], more)) == Before(spans + [span], more)
  {
    if more.Some? {
      assert spans + ([span] + more.value) == spans + [span] + more.value;
    }
  }

  lemma SpansStep(entries: seq<Entry>, start: nat, round: nat, n: nat)
    ensures SpansFrom(entries, start, round, n) ==
      match NextEntry(entries, start, Configured(entries, start))
      case None => Some([Span(start, None, round, n)])
      case Some(next) =>
        if !Divides(n, next.height - start) then None
        else
          (QuotientBounds(next.height - start, n);
           Before([Span(start, Some(next.height - 1), round, n)],
                  SpansFrom(entries, next.height, round + (next.height - start) / n, next.validators)))
  {
  }

  /** The number of validators at a height is that of the last entry up to it. */
  lemma {:induction false} LastHolds(entries: seq<Entry>, height: nat, carry: Option<nat>) returns (j: nat)
    requires AscendingEntries(entries) && entries != [] && entries[0].height <= height
    ensures j < |entries| && entries[j].height <= height && (j + 1 < |entries| ==> entries[j + 1].height > height)
    ensures ValidatorsAt(entries, height, carry) == Some(entries[j].validators)
    decreases |entries|
  {
    if |entries| == 1 || entries[1].height > height {
      j := 0;
    } else {
      var i := LastHolds(entries[1..], height, Some(entries[0].validators));
      j := i + 1;
    }
  }

  /** Above genesis every height has validators. */
  lemma ConfiguredIs(entries: seq<Entry>, genesis: nat, height: nat)
    requires Accepted(entries, genesis) && AscendingEntries(entries) && height > genesis
    ensures Configured(entries, height) > 0 && ValidatorsAt(entries, height, None) == Some(Configured(entries, height))
  {
    var j := LastHolds(entries, height, None);
    assert j >= 1;
  }

  /** The lookups in the merged milestones find the configured number of a height and the next different one. */
  lemma LookupAt(ms: seq<Milestone>, genesis: nat, height: nat)
    requires Ascending(ms) && Accepted(Entries(ms), genesis) && height > genesis
    ensures var n := Configured(Entries(ms), height);
      && ms != [] && height >= ms[0].height
      && At(Merged(ms, None), height).Some? && At(Merged(ms, None), height).value.roundValidators == Some(n)
      && Next(Merged(ms, None), height, Some(n)) == NextEntry(Entries(ms), height, n)
  {
    EntriesAscend(ms);
    ConfiguredIs(Entries(ms), genesis, height);
    MergedLookup(ms, height, None);
    NextLookup(ms, height, Configured(Entries(ms), height), None);
  }

  method GetValidatorSpans(configuration: Configuration, ghost ms: seq<Milestone>) returns (r: Option<seq<Span>>)
    requires configuration.Valid() && Ascending(ms) && configuration.milestones == Merged(ms, None)
    requires Accepted(Entries(ms), configuration.genesisHeight)
    modifies configuration`index, configuration`data
    ensures configuration.Valid()
    ensures r == Spans(Entries(ms), configuration.genesisHeight)
  {
    hide At, Next, NextEntry, SpansFrom, Entries, Merged, Top, Before, Ascending, Configured, Accepted;
    ghost var entries, genesis := Entries(ms), configuration.genesisHeight;
    var spans: seq<Span> := [];
    var startHeight: nat, startRound: nat := configuration.genesisHeight + 1, 1;
    LookupAt(ms, genesis, startHeight);
    var milestone := configuration.GetMilestone(startHeight);
    var roundValidators := milestone.value.roundValidators.value;
    var nextMilestone := configuration.GetNextMilestoneWithNewKey(startHeight);
    ghost var all := Spans(entries, configuration.genesisHeight);
    BeforeNone(all);
    while nextMilestone.Some?
      invariant configuration.Valid() && startHeight > genesis
      invariant nextMilestone == NextEntry(entries, startHeight, Configured(entries, startHeight))
      invariant all == Before(spans, SpansFrom(entries, startHeight, startRound, roundValidators))
      decreases if Top(entries) > startHeight then Top(entries) - startHeight else 0
    {
      var spanHeights := nextMilestone.value.height - startHeight;
      SpansStep(entries, startHeight, startRound, roundValidators);
      if !Divides(roundValidators, spanHeights) {
        BeforeNothing(spans);
        return None;
      }
      QuotientBounds(spanHeights, roundValidators);
      var span := Span(startHeight, Some(nextMilestone.value.height - 1), startRound, roundValidators);
      BeforeByOne(spans, span, SpansFrom(entries, nextMilestone.value.height,
                  startRound + spanHeights / roundValidators, nextMilestone.value.validators));
      spans := spans + [span];
      startHeight := nextMilestone.value.height;
      startRound := startRound + spanHeights / roundValidators;
      roundValidators := nextMilestone.value.validators;
      LookupAt(ms, genesis, startHeight);
      nextMilestone := configuration.GetNextMilestoneWithNewKey(startHeight);
    }
    SpansStep(entries, startHeight, startRound, roundValidators);
    BeforeLast(spans, Span(startHeight, None, startRound, roundValidators));
    spans := spans + [Span(startHeight, None, startRound, roundValidators)];
    return Some(spans);
  }

  // What the spans look like

  ghost predicate Adjoin(a: Span, b: Span) {
    && a.startHeight < b.startHeight && a.startRound <= b.startRound && a.endHeight == Some(b.startHeight - 1)
    && b.startHeight == a.startHeight + (b.startRound - a.startRound) * a.roundValidators
  }

  ghost predicate AdjoinsNext(spans: seq<Span>, i: nat)
    requires i < |spans| - 1
  {
    Adjoin(spans[i], spans[i + 1])
  }

  /** Each span but the last ends right before the next one and holds a whole number of rounds. */
  ghost predicate Tiled(spans: seq<Span>) {
    && spans != [] && spans[|spans| - 1].endHeight == None
    && (forall i :: 0 <= i < |spans| ==> spans[i].roundValidators > 0)
    && (forall i :: 0 <= i < |spans| - 1 ==> AdjoinsNext(spans, i))
  }

  lemma WholeRounds(k: nat, n: nat)
    requires n > 0
    ensures k * n >= 0 && k * n / n == k && k * n % n == 0
  {
    assert k * n == n * k + 0;
    QuotientIs(k * n, n, k, 0);
  }

  lemma AdjoinWhole(a: Span, b: Span)
    requires Adjoin(a, b) && a.roundValidators > 0
    ensures a.startHeight < b.startHeight && a.endHeight == Some(b.startHeight - 1)
    ensures (b.startHeight - a.startHeight) % a.roundValidators == 0
    ensures b.startRound == a.startRound + (b.startHeight - a.startHeight) / a.roundValidators
  {
    WholeRounds(b.startRound - a.startRound, a.roundValidators);
  }

  lemma TiledTail(spans: seq<Span>)
    requires Tiled(spans) && |spans| > 1
    ensures Tiled(spans[1..]) && Adjoin(spans[0], spans[1])
  {
    hide Adjoin;
    assert AdjoinsNext(spans, 0);
    forall i | 0 <= i < |spans[1..]| - 1 ensures AdjoinsNext(spans[1..], i) {
      assert AdjoinsNext(spans, i + 1);
    }
  }

  lemma TiledCons(span: Span, spans: seq<Span>)
    requires Tiled(spans) && span.roundValidators > 0 && Adjoin(span, spans[0])
    ensures Tiled([span] + spans)
  {
    hide Adjoin;
    var all := [span] + spans;
    forall i | 0 <= i < |all| - 1 ensures AdjoinsNext(all, i) {
      if i > 0 {
        assert AdjoinsNext(spans, i - 1);
      }
    }
  }

  lemma FollowingSpan(start: nat, round: nat, n: nat, next: Span)
    requires n > 0 && next.startHeight > start && (next.startHeight - start) % n == 0
    requires next.startRound == round + (next.startHeight - start) / n
    ensures Adjoin(Span(start, Some(next.startHeight - 1), round, n), next)
  {
    var x := next.startHeight - start;
    QuotientBounds(x, n);
    assert x == n * (x / n) + x % n;
    assert n * (x / n) == (x / n) * n;
  }

  lemma {:induction false} SpansTile(entries: seq<Entry>, start: nat, round: nat, n: nat)
    requires n > 0 && SpansFrom(entries, start, round, n).Some?
    ensures var spans := SpansFrom(entries, start, round, n).value;
      Tiled(spans) && spans[0].startHeight == start && spans[0].startRound == round && spans[0].roundValidators == n
    decreases if Top(entries) > start then Top(entries) - start else 0
  {
    hide SpansFrom, NextEntry, Adjoin, Top, Configured;
    SpansStep(entries, start, round, n);
    match NextEntry(entries, start, Configured(entries, start))
    case None =>
    case Some(next) =>
      QuotientBounds(next.height - start, n);
      var startRound := round + (next.height - start) / n;
      SpansTile(entries, next.height, startRound, next.validators);
      var rest := SpansFrom(entries, next.height, startRound, next.validators).value;
      FollowingSpan(start, round, n, rest[0]);
      TiledCons(Span(start, Some(next.height - 1), round, n), rest);
  }

  // The round of a height

  function SpanOf(spans: seq<Span>, height: nat): Span
    requires spans != []
  {
    if |spans| == 1 || spans[0].endHeight.None? || height <= spans[0].endHeight.value then spans[0]
    else SpanOf(spans[1..], height)
  }

  lemma {:induction false} SpanOfIs(spans: seq<Span>, height: nat)
    requires Tiled(spans) && height >= spans[0].startHeight
    ensures SpanOf(spans, height).startHeight <= height && SpanOf(spans, height).roundValidators > 0
    ensures SpanOf(spans, height).endHeight.Some? ==> height <= SpanOf(spans, height).endHeight.value
  {
    if |spans| <= 1 {
    } else {
      TiledTail(spans);
      if height > spans[0].endHeight.value {
        SpanOfIs(spans[1..], height);
      }
    }
  }

  function InfoIn(span: Span, height: nat): RoundInfo
    requires span.startHeight <= height && span.roundValidators > 0
  {
    var heightsIntoSpan := height - span.startHeight;
    QuotientBounds(heightsIntoSpan, span.roundValidators);
    var roundsIntoSpan := heightsIntoSpan / span.roundValidators;
    var round := span.startRound + roundsIntoSpan;
    RoundInfo(
      span.roundValidators,
      if (heightsIntoSpan + 1) % span.roundValidators == 0 then round + 1 else round,
      round,
      span.startHeight + roundsIntoSpan * span.roundValidators)
  }

  function InfoOf(spans: seq<Span>, height: nat): RoundInfo
    requires Tiled(spans) && height >= spans[0].startHeight
  {
    SpanOfIs(spans, height);
    InfoIn(SpanOf(spans, height), height)
  }

  /** The span of a height is the first one that does not end before it. */
  method GetValidatorSpan(spans: seq<Span>, height: nat) returns (span: Span)
    requires Tiled(spans)
    ensures span == SpanOf(spans, height)
  {
    hide Adjoin;
    var i := 0;
    assert spans[0..] == spans;
    while spans[i].endHeight.Some? && height > spans[i].endHeight.value
      invariant 0 <= i < |spans| && Tiled(spans[i..])
      invariant SpanOf(spans, height) == SpanOf(spans[i..], height)
      decreases |spans| - i
    {
      assert spans[i..][1..] == spans[i + 1..];
      TiledTail(spans[i..]);
      i := i + 1;
    }
    return spans[i];
  }

  /** The round of a height: it starts at or before the height and has not ended, and the round after the height is the
      round of the next height. */
  method CalculateRound(configuration: Configuration, height: nat, ghost ms: seq<Milestone>)
    returns (r: Option<RoundInfo>)
    requires configuration.Valid() && Ascending(ms) && configuration.milestones == Merged(ms, None)
    requires Accepted(Entries(ms), configuration.genesisHeight)
    modifies configuration`index, configuration`data
    ensures configuration.Valid()
    ensures height == configuration.genesisHeight ==> r == Some(RoundInfo(0, 1, 0, height))
    ensures height < configuration.genesisHeight ==> r == None
    ensures height > configuration.genesisHeight ==>
      match Spans(Entries(ms), configuration.genesisHeight)
      case None => r == None
      case Some(spans) => Tiled(spans) && spans[0].startHeight <= height && r == Some(InfoOf(spans, height))
  {
    if height == configuration.genesisHeight {
      return Some(RoundInfo(0, 1, 0, height));
    }
    if height < configuration.genesisHeight {
      return None;
    }
    hide Tiled, SpansFrom, Entries, Merged, Ascending, InfoIn, Configured;
    var spans := GetValidatorSpans(configuration, ms);
    if spans.None? {
      return None;
    }
    EntriesAscend(ms);
    ConfiguredIs(Entries(ms), configuration.genesisHeight, configuration.genesisHeight + 1);
    SpansTile(Entries(ms), configuration.genesisHeight + 1, 1,
              Configured(Entries(ms), configuration.genesisHeight + 1));
    SpanOfIs(spans.value, height);
    var span := GetValidatorSpan(spans.value, height);
    return Some(InfoIn(span, height));
  }

  // Rounds partition the heights

  lemma InSpan(span: Span, height: nat)
    requires span.startHeight <= height && span.roundValidators > 0
    ensures var info := InfoIn(span, height);
      info.roundHeight <= height < info.roundHeight + info.maxValidators
    ensures var here, next := InfoIn(span, height), InfoIn(span, height + 1);
      here.nextRound == next.round && (next.round == here.round + 1 <==> next.roundHeight == height + 1)
  {
    var x, n := height - span.startHeight, span.roundValidators;
    QuotientBounds(x, n);
    QuotientBounds(x + 1, n);
    QuotientStep(x, n);
  }

  /** A height lies in its round, which has as many heights as validators. */
  lemma RoundCovers(spans: seq<Span>, height: nat)
    requires Tiled(spans) && height >= spans[0].startHeight
    ensures var info := InfoOf(spans, height);
      info.roundHeight <= height < info.roundHeight + info.maxValidators
  {
    hide InfoIn;
    SpanOfIs(spans, height);
    InSpan(SpanOf(spans, height), height);
  }

  lemma FirstOf(spans: seq<Span>, height: nat)
    requires Tiled(spans) && height == spans[0].startHeight
    ensures SpanOf(spans, height) == spans[0]
  {
    if |spans| > 1 {
      TiledTail(spans);
    }
  }

  lemma AtBorder(a: Span, b: Span)
    requires Adjoin(a, b) && a.roundValidators > 0 && b.roundValidators > 0
    ensures var height := b.startHeight - 1;
      var here, next := InfoIn(a, height), InfoIn(b, height + 1);
      here.nextRound == next.round == here.round + 1 && next.roundHeight == height + 1
  {
    var x, n := b.startHeight - 1 - a.startHeight, a.roundValidators;
    AdjoinWhole(a, b);
    QuotientStep(x, n);
    QuotientIs(0, b.roundValidators, 0, 0);
  }

  /** What a height announces as the next round is the round of the next height, and a new round starts exactly where
      the number of the round grows. */
  lemma {:induction false} NextRoundIs(spans: seq<Span>, height: nat)
    requires Tiled(spans) && height >= spans[0].startHeight
    ensures var here, next := InfoOf(spans, height), InfoOf(spans, height + 1);
      && here.nextRound == next.round
      && here.round <= next.round <= here.round + 1
      && (next.round == here.round + 1 <==> next.roundHeight == height + 1)
  {
    SpanOfIs(spans, height);
    SpanOfIs(spans, height + 1);
    if |spans| > 1 {
      TiledTail(spans);
    }
    if |spans| > 1 && height > spans[0].endHeight.value {
      NextRoundIs(spans[1..], height);
    } else if |spans| > 1 && height == spans[0].endHeight.value {
      FirstOf(spans[1..], height + 1);
      AtBorder(spans[0], spans[1]);
    } else {
      InSpan(spans[0], height);
    }
  }

  lemma SameInSpan(span: Span, height: nat, other: nat)
    requires span.startHeight <= height && span.roundValidators > 0
    requires InfoIn(span, height).roundHeight <= other < InfoIn(span, height).roundHeight + span.roundValidators
    ensures other >= span.startHeight
    ensures var here, there := InfoIn(span, height), InfoIn(span, other);
      there.round == here.round && there.roundHeight == here.roundHeight && there.maxValidators == here.maxValidators
  {
    var x, n := height - span.startHeight, span.roundValidators;
    QuotientBounds(x, n);
    SameQuotient(x, other - span.startHeight, n);
  }

  /** The multiple after a number below a multiple is not above that multiple. */
  lemma StaysInside(x: nat, m: nat, n: nat)
    requires n > 0 && x < m && m % n == 0
    ensures x / n * n + n <= m
  {
    QuotientBounds(x, n);
    assert m == n * (m / n);
    if m < x / n * n + n {
      SameQuotient(x, m, n);
    }
  }

  /** The first block after genesis starts round 1, which is the round genesis announces as the next one. */
  lemma FirstRound(entries: seq<Entry>, genesis: nat)
    requires Accepted(entries, genesis) && AscendingEntries(entries) && Spans(entries, genesis).Some?
    ensures var spans := Spans(entries, genesis).value;
      && Tiled(spans) && spans[0].startHeight == genesis + 1
      && InfoOf(spans, genesis + 1).round == 1 && InfoOf(spans, genesis + 1).roundHeight == genesis + 1
  {
    hide SpansFrom, Configured;
    ConfiguredIs(entries, genesis, genesis + 1);
    SpansTile(entries, genesis + 1, 1, Configured(entries, genesis + 1));
    var spans := Spans(entries, genesis).value;
    FirstOf(spans, genesis + 1);
    QuotientIs(0, spans[0].roundValidators, 0, 0);
  }

  /** All heights of a round are in the same round: no round reaches over the end of a span. */
  lemma {:induction false} RoundIsWhole(spans: seq<Span>, height: nat, other: nat)
    requires Tiled(spans) && height >= spans[0].startHeight
    requires var info := InfoOf(spans, height);
      info.roundHeight <= other < info.roundHeight + info.maxValidators
    ensures other >= spans[0].startHeight
    ensures var here, there := InfoOf(spans, height), InfoOf(spans, other);
      there.round == here.round && there.roundHeight == here.roundHeight && there.maxValidators == here.maxValidators
  {
    hide Adjoin;
    SpanOfIs(spans, height);
    if |spans| > 1 {
      TiledTail(spans);
      AdjoinWhole(spans[0], spans[1]);
    }
    if |spans| > 1 && height > spans[0].endHeight.value {
      RoundIsWhole(spans[1..], height, other);
      assert other > spans[0].endHeight.value;
    } else {
      if |spans| > 1 {
        StaysInside(height - spans[0].startHeight, spans[1].startHeight - spans[0].startHeight,
                    spans[0].roundValidators);
      }
      SameInSpan(spans[0], height, other);
    }
  }

  // The number of validators of a round is the one configured for its heights

  lemma {:induction false} NoneUpTo(entries: seq<Entry>, height: nat, carry: Option<nat>)
    requires forall i :: 0 <= i < |entries| ==> entries[i].height > height
    ensures ValidatorsAt(entries, height, carry) == carry
  {
  }

  lemma {:induction false} ConstantUpTo(entries: seq<Entry>, start: nat, height: nat, n: nat, carry: Option<nat>)
    requires AscendingEntries(entries) && start <= height && ValidatorsAt(entries, start, carry) == Some(n)
    requires forall i :: 0 <= i < |entries| && start < entries[i].height <= height ==> entries[i].validators == n
    ensures ValidatorsAt(entries, height, carry) == Some(n)
  {
    if entries == [] || entries[0].height > height {
    } else {
      if entries[0].height > start {
        NoneUpTo(entries[1..], start, Some(n));
      }
      ConstantUpTo(entries[1..], start, height, n, Some(entries[0].validators));
    }
  }

  ghost predicate NonZeroAbove(entries: seq<Entry>, height: nat) {
    forall i :: 0 <= i < |entries| && entries[i].height > height ==> entries[i].validators != 0
  }

  /** Where the next different entry stands: every entry between has the number `n`. */
  lemma {:induction false} NextIndex(entries: seq<Entry>, start: nat, n: nat) returns (j: nat)
    requires NonZeroAbove(entries, start)
    ensures j <= |entries| && NextEntry(entries, start, n) == if j < |entries| then Some(entries[j]) else None
    ensures forall i :: 0 <= i < j && entries[i].height > start ==> entries[i].validators == n
    ensures j < |entries| ==> entries[j].height > start && entries[j].validators != n
  {
    if entries == [] || (entries[0].height > start && entries[0].validators != n) {
      j := 0;
    } else {
      var i := NextIndex(entries[1..], start, n);
      j := i + 1;
    }
  }

  /** The first entry of its height that differs from what held before. */
  ghost predicate IsFirstNew(entries: seq<Entry>, i: nat)
    requires i < |entries|
  {
    && entries[i].height > 0 && entries[i].validators != Configured(entries, entries[i].height - 1)
    && forall k :: 0 <= k < i && entries[k].height == entries[i].height ==>
         entries[k].validators == Configured(entries, entries[i].height - 1)
  }

  /** Of several entries for one height, the first new one is also the last word. */
  ghost predicate FirstsHold(entries: seq<Entry>, start: nat) {
    forall i :: 0 <= i < |entries| && entries[i].height > start && IsFirstNew(entries, i) ==>
      entries[i].validators == Configured(entries, entries[i].height)
  }

  lemma ConstantBefore(entries: seq<Entry>, start: nat, j: nat, height: nat)
    requires AscendingEntries(entries) && j <= |entries| && start <= height
    requires ValidatorsAt(entries, start, None) == Some(Configured(entries, start))
    requires forall i :: 0 <= i < j && entries[i].height > start ==> entries[i].validators == Configured(entries, start)
    requires j < |entries| ==> height < entries[j].height
    ensures Configured(entries, height) == Configured(entries, start)
  {
    ConstantUpTo(entries, start, height, Configured(entries, start), None);
  }

  /** Entry `i` is the first new one above `start`. */
  ghost predicate ComesNext(entries: seq<Entry>, start: nat, i: nat)
    requires i < |entries|
  {
    && entries[i].height > start && IsFirstNew(entries, i)
    && forall k :: 0 <= k < i && entries[k].height > start ==> !IsFirstNew(entries, k)
  }

  /** The first new entries above `start` are the entry found next and those above it. */
  lemma NextIsNew(entries: seq<Entry>, start: nat, j: nat)
    requires AscendingEntries(entries) && j <= |entries|
    requires ValidatorsAt(entries, start, None) == Some(Configured(entries, start))
    requires forall i :: 0 <= i < j && entries[i].height > start ==> entries[i].validators == Configured(entries, start)
    requires j < |entries| ==> entries[j].height > start && entries[j].validators != Configured(entries, start)
    ensures forall i :: 0 <= i < j && entries[i].height > start ==> !IsFirstNew(entries, i)
    ensures j < |entries| ==> ComesNext(entries, start, j)
    ensures forall i :: j < i < |entries| && entries[i].height == entries[j].height ==> !IsFirstNew(entries, i)
  {
    hide Configured;
    forall i | 0 <= i < j && entries[i].height > start ensures !IsFirstNew(entries, i) {
      ConstantBefore(entries, start, j, entries[i].height - 1);
    }
    if j < |entries| {
      ConstantBefore(entries, start, j, entries[j].height - 1);
    }
  }

  /** Between a start and the next change nothing is new, and at the next change exactly the entry found is. */
  lemma FirstsFrom(entries: seq<Entry>, start: nat, j: nat)
    requires AscendingEntries(entries) && j <= |entries|
    requires ValidatorsAt(entries, start, None) == Some(Configured(entries, start))
    requires forall i :: 0 <= i < j && entries[i].height > start ==> entries[i].validators == Configured(entries, start)
    requires j < |entries| ==> entries[j].height > start && entries[j].validators != Configured(entries, start)
    ensures j == |entries| ==> FirstsHold(entries, start)
    ensures j < |entries| ==>
      (FirstsHold(entries, start) <==>
       entries[j].validators == Configured(entries, entries[j].height) && FirstsHold(entries, entries[j].height))
  {
    NextIsNew(entries, start, j);
    hide Configured, IsFirstNew;
  }

  ghost predicate HasConfigured(entries: seq<Entry>, spans: seq<Span>, height: nat)
    requires spans != []
  {
    SpanOf(spans, height).roundValidators == Configured(entries, height)
  }

  lemma FirstSpan(span: Span, rest: seq<Span>, height: nat)
    requires rest != [] && span.endHeight.Some?
    ensures SpanOf([span] + rest, height) == if height <= span.endHeight.value then span else SpanOf(rest, height)
  {
    assert ([span] + rest)[1..] == rest;
  }

  lemma JoinsAt(entries: seq<Entry>, spans: seq<Span>, rest: seq<Span>, start: nat, middle: nat, first: bool)
    requires spans != [] && rest != [] && start < middle
    requires forall height :: start <= height ==>
      (HasConfigured(entries, spans, height) <==>
       if height < middle then first else HasConfigured(entries, rest, height))
    ensures (forall height :: start <= height ==> HasConfigured(entries, spans, height)) <==>
      (first && forall height :: middle <= height ==> HasConfigured(entries, rest, height))
  {
    hide HasConfigured;
    if forall height :: start <= height ==> HasConfigured(entries, spans, height) {
      assert HasConfigured(entries, spans, start);
      forall height | middle <= height ensures HasConfigured(entries, rest, height) {
        assert HasConfigured(entries, spans, height);
      }
    }
  }

  lemma {:induction false} SpansHoldIff(entries: seq<Entry>, genesis: nat, start: nat, round: nat, n: nat)
    requires Accepted(entries, genesis) && AscendingEntries(entries) && start > genesis && n > 0
    requires SpansFrom(entries, start, round, n).Some? && SpansFrom(entries, start, round, n).value != []
    ensures (forall height :: start <= height ==>
               HasConfigured(entries, SpansFrom(entries, start, round, n).value, height)) <==>
      (n == Configured(entries, start) && FirstsHold(entries, start))
    decreases if Top(entries) > start then Top(entries) - start else 0
  {
    hide SpansFrom, NextEntry, Top, Configured, FirstsHold;
    var spans := SpansFrom(entries, start, round, n).value;
    ConfiguredIs(entries, genesis, start);
    var j := NextIndex(entries, start, Configured(entries, start));
    hide Accepted;
    SpansStep(entries, start, round, n);
    FirstsFrom(entries, start, j);
    forall height | start <= height && (j < |entries| ==> height < entries[j].height)
      ensures Configured(entries, height) == Configured(entries, start)
    {
      ConstantBefore(entries, start, j, height);
    }
    if j < |entries| {
      var next := entries[j];
      QuotientBounds(next.height - start, n);
      var startRound := round + (next.height - start) / n;
      SpansTile(entries, next.height, startRound, next.validators);
      SpansHoldIff(entries, genesis, next.height, startRound, next.validators);
      var rest := SpansFrom(entries, next.height, startRound, next.validators).value;
      var span := Span(start, Some(next.height - 1), round, n);
      assert spans == [span] + rest;
      forall height | start <= height
        ensures HasConfigured(entries, spans, height) <==>
          if height < next.height then n == Configured(entries, start) else HasConfigured(entries, rest, height)
      {
        FirstSpan(span, rest, height);
      }
      JoinsAt(entries, spans, rest, start, next.height, n == Configured(entries, start));
    } else {
      forall height | start <= height
        ensures HasConfigured(entries, spans, height) <==> n == Configured(entries, start)
      {
      }
      assert HasConfigured(entries, spans, start) <==> n == Configured(entries, start);
    }
  }

  /** The round of a height has the number of validators the milestone of that height gives. */
  ghost predicate HasMilestoneValidators(ms: seq<Milestone>, spans: seq<Span>, height: nat) {
    && Tiled(spans) && spans[0].startHeight <= height && At(Merged(ms, None), height).Some?
    && Some(InfoOf(spans, height).maxValidators) == At(Merged(ms, None), height).value.roundValidators
  }

  lemma TiledIsSome(spans: seq<Span>)
    requires Tiled(spans)
    ensures spans != []
  {
  }

  lemma SameForAll(ms: seq<Milestone>, entries: seq<Entry>, spans: seq<Span>, genesis: nat)
    requires spans != []
    requires forall height :: genesis < height ==>
      (HasMilestoneValidators(ms, spans, height) <==> HasConfigured(entries, spans, height))
    ensures (forall height :: genesis < height ==> HasMilestoneValidators(ms, spans, height)) <==>
      (forall height :: genesis + 1 <= height ==> HasConfigured(entries, spans, height))
  {
    hide HasMilestoneValidators, HasConfigured;
    if forall height :: genesis < height ==> HasMilestoneValidators(ms, spans, height) {
      forall height | genesis + 1 <= height ensures HasConfigured(entries, spans, height) {
        assert HasMilestoneValidators(ms, spans, height);
      }
    }
    if forall height :: genesis + 1 <= height ==> HasConfigured(entries, spans, height) {
      forall height: nat | genesis < height ensures HasMilestoneValidators(ms, spans, height) {
        assert HasConfigured(entries, spans, height);
      }
    }
  }

  /** Every round above genesis has the number of validators its heights are configured with, if and only if the first
      new entry of every height is also the last word for that height. */
  lemma RoundsHaveValidators(ms: seq<Milestone>, genesis: nat)
    requires Ascending(ms) && Accepted(Entries(ms), genesis) && Spans(Entries(ms), genesis).Some?
    ensures Tiled(Spans(Entries(ms), genesis).value) && Spans(Entries(ms), genesis).value[0].startHeight == genesis + 1
    ensures (forall height :: genesis < height ==>
               HasMilestoneValidators(ms, Spans(Entries(ms), genesis).value, height)) <==>
      FirstsHold(Entries(ms), genesis + 1)
  {
    hide SpansFrom, FirstsHold, Configured, Tiled, Merged, Entries, Accepted, Ascending, At;
    var entries := Entries(ms);
    EntriesAscend(ms);
    ConfiguredIs(entries, genesis, genesis + 1);
    SpansTile(entries, genesis + 1, 1, Configured(entries, genesis + 1));
    var spans := Spans(entries, genesis).value;
    TiledIsSome(spans);
    SpansHoldIff(entries, genesis, genesis + 1, 1, Configured(entries, genesis + 1));
    forall height | genesis < height
      ensures HasMilestoneValidators(ms, spans, height) <==> HasConfigured(entries, spans, height)
    {
      LookupAt(ms, genesis, height);
      SpanOfIs(spans, height);
    }
    SameForAll(ms, entries, spans, genesis);
  }

  ghost predicate HeightsAgree(entries: seq<Entry>) {
    forall i, j :: 0 <= i < j < |entries| && entries[i].height == entries[j].height ==>
      entries[i].validators == entries[j].validators
  }

  lemma EntryHolds(entries: seq<Entry>, i: nat)
    requires AscendingEntries(entries) && HeightsAgree(entries) && i < |entries|
    ensures Configured(entries, entries[i].height) == entries[i].validators
  {
    var j := LastHolds(entries, entries[i].height, None);
    assert i <= j && entries[i].height == entries[j].height;
  }

  /** So it always does when all entries of one height agree, and so when no two milestones have the same height. */
  lemma RoundHasValidators(ms: seq<Milestone>, genesis: nat, height: nat)
    requires Ascending(ms) && Accepted(Entries(ms), genesis) && height > genesis
    requires HeightsAgree(Entries(ms)) && Spans(Entries(ms), genesis).Some?
    ensures HasMilestoneValidators(ms, Spans(Entries(ms), genesis).value, height)
  {
    hide SpansFrom, Entries, Merged, Accepted, Ascending, HasMilestoneValidators, IsFirstNew, Configured;
    RoundsHaveValidators(ms, genesis);
    EntriesAscend(ms);
    forall i | 0 <= i < |Entries(ms)|
      ensures Entries(ms)[i].validators == Configured(Entries(ms), Entries(ms)[i].height)
    {
      EntryHolds(Entries(ms), i);
    }
  }

  const TWICE: seq<Entry> := [Entry(0, 0), Entry(1, 5), Entry(6, 7), Entry(6, 9)]

  lemma TwiceLookups()
    ensures Configured(TWICE, 1) == 5 && Configured(TWICE, 5) == 5 && Configured(TWICE, 6) == 9
    ensures NextEntry(TWICE, 1, 5) == Some(Entry(6, 7)) && NextEntry(TWICE, 6, 9) == None
  {
    var a, b, c := TWICE[1..], TWICE[2..], TWICE[3..];
    assert a[1..] == b && b[1..] == c && c[1..] == [];
    assert ValidatorsAt(c, 6, Some(7)) == Some(9);
    assert ValidatorsAt(b, 6, Some(5)) == Some(9);
    assert ValidatorsAt(b, 5, Some(5)) == Some(5) && ValidatorsAt(b, 1, Some(5)) == Some(5);
    assert NextEntry(b, 1, 5) == Some(Entry(6, 7)) && NextEntry(c, 6, 9) == None && NextEntry(b, 6, 9) == None;
  }

  /** Two numbers for height 6 are accepted: the milestone of that height says nine, the rounds have seven. */
  lemma EqualHeightsDisagree()
    ensures Accepted(TWICE, 0) && AscendingEntries(TWICE)
    ensures Spans(TWICE, 0) == Some([Span(1, Some(5), 1, 5), Span(6, None, 2, 7)])
    ensures Configured(TWICE, 6) == 9 && !FirstsHold(TWICE, 1)
  {
    hide Configured, NextEntry, SpansFrom;
    TwiceLookups();
    SpansStep(TWICE, 6, 2, 7);
    assert SpansFrom(TWICE, 6, 2, 7) == Some([Span(6, None, 2, 7)]);
    SpansStep(TWICE, 1, 1, 5);
    assert [Span(1, Some(5), 1, 5)] + [Span(6, None, 2, 7)] == [Span(1, Some(5), 1, 5), Span(6, None, 2, 7)];
    assert IsFirstNew(TWICE, 2);
  }

  // When an accepted configuration has rounds

  ghost predicate Follows(entries: seq<Entry>, i: nat, k: nat)
    requires i < |entries| && k < |entries|
  {
    IsFirstNew(entries, i) && ComesNext(entries, entries[i].height, k)
  }

  /** From `start` on, with `n` validators there, each first new entry is a whole number of rounds away from the one
      before it. */
  ghost predicate WholeRoundsApart(entries: seq<Entry>, start: nat, n: nat) {
    && (forall i :: 0 <= i < |entries| && ComesNext(entries, start, i) ==> Divides(n, entries[i].height - start))
    && (forall i, k :: 0 <= i < |entries| && entries[i].height > start && 0 <= k < |entries| &&
                       Follows(entries, i, k) ==>
          Divides(entries[i].validators, entries[k].height - entries[i].height))
  }

  lemma ApartFrom(entries: seq<Entry>, start: nat, n: nat, j: nat)
    requires AscendingEntries(entries) && j < |entries| && ComesNext(entries, start, j)
    requires forall i :: j < i < |entries| && entries[i].height == entries[j].height ==> !IsFirstNew(entries, i)
    ensures WholeRoundsApart(entries, start, n) <==>
      && Divides(n, entries[j].height - start)
      && WholeRoundsApart(entries, entries[j].height, entries[j].validators)
  {
    hide IsFirstNew, Divides;
  }

  lemma NothingApart(entries: seq<Entry>, start: nat, n: nat)
    requires forall i :: 0 <= i < |entries| && entries[i].height > start ==> !IsFirstNew(entries, i)
    ensures WholeRoundsApart(entries, start, n)
  {
  }

  lemma {:induction false} SpansExistIff(entries: seq<Entry>, genesis: nat, start: nat, round: nat, n: nat)
    requires Accepted(entries, genesis) && AscendingEntries(entries) && start > genesis
    ensures SpansFrom(entries, start, round, n).Some? <==> WholeRoundsApart(entries, start, n)
    decreases if Top(entries) > start then Top(entries) - start else 0
  {
    hide SpansFrom, NextEntry, Top, Configured, WholeRoundsApart;
    ConfiguredIs(entries, genesis, start);
    var j := NextIndex(entries, start, Configured(entries, start));
    hide Accepted;
    SpansStep(entries, start, round, n);
    NextIsNew(entries, start, j);
    if j == |entries| {
      NothingApart(entries, start, n);
    } else {
      ApartFrom(entries, start, n, j);
      if Divides(n, entries[j].height - start) {
        QuotientBounds(entries[j].height - start, n);
        SpansExistIff(entries, genesis, entries[j].height, round + (entries[j].height - start) / n,
                      entries[j].validators);
      }
    }
  }

  /** An accepted configuration has rounds if and only if every first new entry is a whole number of rounds away from
      the one before it, or, if it is the first, from the height after genesis. */
  lemma AcceptedHasRounds(entries: seq<Entry>, genesis: nat)
    requires Accepted(entries, genesis) && AscendingEntries(entries)
    ensures Spans(entries, genesis).Some? <==>
      WholeRoundsApart(entries, genesis + 1, Configured(entries, genesis + 1))
  {
    hide SpansFrom, WholeRoundsApart, Configured;
    SpansExistIff(entries, genesis, genesis + 1, 1, Configured(entries, genesis + 1));
  }

  predicate Changes(entries: seq<Entry>, i: nat)
    requires 1 <= i < |entries|
  {
    entries[i].validators != entries[i - 1].validators
  }

  /** Where the number of validators of entry `i` was introduced. */
  function RunStart(entries: seq<Entry>, i: nat): nat
    requires i < |entries|
  {
    if i <= 1 || Changes(entries, i) then entries[i].height else RunStart(entries, i - 1)
  }

  /** The entry before `i` stands at the start of a round. */
  predicate StandsOnRound(entries: seq<Entry>, i: nat)
    requires 1 <= i < |entries|
  {
    Divides(entries[i - 1].validators, entries[i - 1].height - RunStart(entries, i - 1))
  }

  ghost predicate Grounded(entries: seq<Entry>, k: nat) {
    forall i :: 1 <= i < |entries| && k < i && Changes(entries, i) ==> StandsOnRound(entries, i)
  }

  lemma {:induction false} RunStays(entries: seq<Entry>, k: nat, i: nat)
    requires 1 <= k <= i < |entries| && RunStart(entries, k) == entries[k].height
    requires forall m :: k < m <= i ==> entries[m].validators == entries[k].validators
    ensures RunStart(entries, i) == entries[k].height
  {
    if i == k {
    } else {
      RunStays(entries, k, i - 1);
    }
  }

  /** The next entry is the first one behind `k` with another number. */
  lemma {:induction false} NextIsFirst(entries: seq<Entry>, from: nat, height: nat, n: nat) returns (j: nat)
    requires AscendingEntries(entries) && from <= |entries|
    requires forall i :: from <= i < |entries| ==> entries[i].validators != 0
    requires forall i :: from <= i < |entries| ==> entries[i].height > height || entries[i].validators == n
    ensures from <= j <= |entries| && forall i :: from <= i < j ==> entries[i].validators == n
    ensures NextEntry(entries[from..], height, n) == if j < |entries| then Some(entries[j]) else None
    ensures j < |entries| ==> entries[j].validators != n
    decreases |entries| - from
  {
    if from == |entries| || entries[from].validators != n {
      j := from;
    } else {
      assert entries[from..][1..] == entries[from + 1..];
      j := NextIsFirst(entries, from + 1, height, n);
    }
  }

  lemma {:induction false} SkipsUpTo(entries: seq<Entry>, k: nat, height: nat, n: nat)
    requires k <= |entries| && forall i :: 0 <= i < k ==> entries[i].height <= height
    ensures NextEntry(entries, height, n) == NextEntry(entries[k..], height, n)
  {
    if k > 0 {
      SkipsUpTo(entries[1..], k - 1, height, n);
      assert entries[1..][k - 1..] == entries[k..];
    } else {
      assert entries[0..] == entries;
    }
  }

  lemma FirstChange(entries: seq<Entry>, genesis: nat, k: nat) returns (j: nat)
    requires Accepted(entries, genesis) && AscendingEntries(entries) && HeightsAgree(entries)
    requires 1 <= k < |entries| && RunStart(entries, k) == entries[k].height
    ensures k < j <= |entries| && forall i :: k < i < j ==> !Changes(entries, i)
    ensures NextEntry(entries, entries[k].height, entries[k].validators) ==
      if j < |entries| then Some(entries[j]) else None
    ensures j < |entries| ==> Changes(entries, j) && entries[j].height > entries[k].height
    ensures j < |entries| ==> entries[j - 1].validators == entries[k].validators
    ensures j < |entries| ==> RunStart(entries, j - 1) == entries[k].height
  {
    hide NextEntry, FollowsOn;
    var start, n := entries[k].height, entries[k].validators;
    SkipsUpTo(entries, k + 1, start, n);
    j := NextIsFirst(entries, k + 1, start, n);
    RunStays(entries, k, j - 1);
  }

  lemma GroundedFrom(entries: seq<Entry>, k: nat, j: nat)
    requires 1 <= k < j <= |entries| && forall i :: k < i < j ==> !Changes(entries, i)
    requires j < |entries| ==> Changes(entries, j)
    ensures Grounded(entries, k) <==> (j < |entries| ==> StandsOnRound(entries, j) && Grounded(entries, j))
  {
    hide StandsOnRound, Changes;
  }

  lemma StandsIffDivides(entries: seq<Entry>, j: nat, start: nat, n: nat)
    requires 2 <= j < |entries| && Changes(entries, j) && FollowsOn(entries[j - 1], entries[j])
    requires entries[j - 1].validators == n && RunStart(entries, j - 1) == start
    requires start <= entries[j - 1].height < entries[j].height
    ensures StandsOnRound(entries, j) <==> Divides(n, entries[j].height - start)
  {
    MultiplesAdd(entries[j].height - entries[j - 1].height, entries[j - 1].height - start, n);
  }

  lemma {:induction false} SpansExist(entries: seq<Entry>, genesis: nat, k: nat, round: nat)
    requires Accepted(entries, genesis) && AscendingEntries(entries) && HeightsAgree(entries)
    requires 1 <= k < |entries| && RunStart(entries, k) == entries[k].height
    ensures SpansFrom(entries, entries[k].height, round, entries[k].validators).Some? <==> Grounded(entries, k)
    decreases |entries| - k
  {
    hide SpansFrom, NextEntry, Grounded, Divides, Configured;
    var start, n := entries[k].height, entries[k].validators;
    EntryHolds(entries, k);
    var j := FirstChange(entries, genesis, k);
    GroundedFrom(entries, k, j);
    SpansStep(entries, start, round, n);
    if j == |entries| {
    } else {
      assert FollowsOn(entries[j - 1], entries[j]) && start <= entries[j - 1].height;
      assert entries[j - 1].height < entries[j].height;
      StandsIffDivides(entries, j, start, n);
      hide Accepted, AscendingEntries;
      if Divides(n, entries[j].height - start) {
        QuotientBounds(entries[j].height - start, n);
        SpansExist(entries, genesis, j, round + (entries[j].height - start) / n);
      }
    }
  }

  lemma ChangesGround(entries: seq<Entry>, genesis: nat)
    requires Accepted(entries, genesis) && AscendingEntries(entries) && HeightsAgree(entries)
    requires forall i :: 2 <= i < |entries| ==> Changes(entries, i)
    ensures Grounded(entries, 1)
  {
    forall i | 1 < i < |entries| ensures StandsOnRound(entries, i) {
      if i > 2 {
        assert Changes(entries, i - 1);
      }
      assert entries[i - 1].height > genesis && entries[i - 1].validators != 0;
    }
  }

  /** If entries of one height agree, an accepted configuration has rounds if and only if, wherever the number of
      validators changes, the entry before, which may repeat the number, stands at the start of a round. The check only
      looks at the distance to that entry. */
  lemma AgreeingHasRounds(entries: seq<Entry>, genesis: nat)
    requires Accepted(entries, genesis) && AscendingEntries(entries) && HeightsAgree(entries)
    ensures Spans(entries, genesis).Some? <==> Grounded(entries, 1)
    ensures (forall i :: 2 <= i < |entries| ==> Changes(entries, i)) ==> Spans(entries, genesis).Some?
  {
    hide SpansFrom, Grounded, Configured;
    EntryHolds(entries, 1);
    SpansExist(entries, genesis, 1, 1);
    if forall i :: 2 <= i < |entries| ==> Changes(entries, i) {
      ChangesGround(entries, genesis);
    }
  }

  const REPEATED: seq<Entry> := [Entry(0, 0), Entry(1, 5), Entry(3, 5), Entry(8, 7)]

  /** Five validators from height 1, repeated at height 3: a change at height 8 is accepted although a round of five
      starts at 6 and at 11. */
  lemma RepeatedNumberHidesMisfit()
    ensures Accepted(REPEATED, 0) && AscendingEntries(REPEATED) && HeightsAgree(REPEATED) && Spans(REPEATED, 0) == None
  {
    assert Changes(REPEATED, 3) && RunStart(REPEATED, 2) == 1 && !StandsOnRound(REPEATED, 3);
    AgreeingHasRounds(REPEATED, 0);
  }

  const MISFIT: seq<Entry> := [Entry(0, 0), Entry(1, 5), Entry(6, 7), Entry(6, 9), Entry(15, 3)]

  lemma MisfitLookups()
    ensures Configured(MISFIT, 5) == 5 && Configured(MISFIT, 14) == 9
  {
    var a, b, c, d := MISFIT[1..], MISFIT[2..], MISFIT[3..], MISFIT[4..];
    assert a[1..] == b && b[1..] == c && c[1..] == d;
    assert ValidatorsAt(c, 14, Some(7)) == Some(9);
    assert ValidatorsAt(b, 14, Some(5)) == Some(9) && ValidatorsAt(b, 5, Some(5)) == Some(5);
  }

  lemma MisfitIsNew()
    ensures Follows(MISFIT, 2, 4)
  {
    MisfitLookups();
    hide Configured;
    assert IsFirstNew(MISFIT, 2) && IsFirstNew(MISFIT, 4);
    assert forall k :: 0 <= k < 4 ==> MISFIT[k].height <= 6;
  }

  lemma MisfitIsAccepted()
    ensures Accepted(MISFIT, 0) && AscendingEntries(MISFIT) && forall i :: 1 <= i < |MISFIT| ==> Changes(MISFIT, i)
  {
    assert forall i :: 2 <= i < |MISFIT| ==> FollowsOn(MISFIT[i - 1], MISFIT[i]);
  }

  lemma MisfitIsGrounded()
    ensures Grounded(MISFIT, 1)
  {
    forall i | 1 < i < |MISFIT| ensures StandsOnRound(MISFIT, i) {
      assert RunStart(MISFIT, i - 1) == MISFIT[i - 1].height;
    }
  }

  /** Two numbers for height 6 can hide one too, although no number repeats: the check measures the change at 15 in
      rounds of nine, the rounds have seven. */
  lemma EqualHeightsHideMisfit()
    ensures Accepted(MISFIT, 0) && AscendingEntries(MISFIT) && Grounded(MISFIT, 1)
    ensures (forall i :: 1 <= i < |MISFIT| ==> Changes(MISFIT, i)) && Spans(MISFIT, 0) == None
  {
    hide Configured, SpansFrom, Accepted, AscendingEntries, Grounded, Changes, Follows, ComesNext;
    MisfitIsAccepted();
    MisfitIsGrounded();
    MisfitIsNew();
    AcceptedHasRounds(MISFIT, 0);
    assert Follows(MISFIT, 2, 4) && !Divides(7, 9);
  }
}
