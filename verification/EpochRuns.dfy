/**
  What the epoch rules guarantee: closed forms of the adjustment formulas, bounds over every
  run of epochs, and how much the primary issuance can ever amount to.
 */
module EpochRuns {
  import opened Types
  import opened Arithmetic
  import opened Difficulty
  import opened Epoch
  import Since

  // ---------------------------------------------------------------- one adjustment

  function Distance(a: nat, b: nat): nat {
    if a < b then b - a else a - b
  }

  /** The rates that damping allows after a rate of `previous`; after none, every positive rate. */
  predicate Allowed(rate: nat, previous: nat) {
    rate > 0 && (previous > 0 ==> previous / 2 <= rate <= previous * 2)
  }

  /** The adjusted hash rate is allowed, and no allowed rate is closer to the observed one. */
  lemma {:induction false} HashRateDamped(previous: nat, length: nat, difficulty: nat, uncles: nat, duration: nat,
                                          other: nat)
    requires duration > 0 && Allowed(other, previous)
    ensures var rate := AdjustedHashRate(previous, length, difficulty, uncles, duration);
            var seen := difficulty * (length + uncles) / duration;
            Allowed(rate, previous) && Distance(rate, seen) <= Distance(other, seen)
  {
  }

  /** The next length stays in range and within a factor of two of the last. */
  lemma {:induction false} LengthBounds(length: nat, uncles: nat, duration: nat)
    requires MIN_EPOCH_LENGTH <= length <= MAX_EPOCH_LENGTH && duration > 0
    ensures var next := NextLength(length, uncles, duration).0;
            MIN_EPOCH_LENGTH <= next <= MAX_EPOCH_LENGTH && length / 2 <= next <= length * 2
  {
  }

  /** The length formula, cleared of fractions. */
  lemma {:induction false} RawLengthIs(length: nat, uncles: nat, duration: nat)
    requires length > 0 && uncles > 0 && duration > 0
    ensures 41 * uncles * duration > 0
    ensures RawLength(length, uncles, duration) ==
            (EPOCH_DURATION_TARGET * length * (length + uncles)) / (41 * uncles * duration)
  {
    MulPositive(41 * uncles, duration);
    var a, b, k := EPOCH_DURATION_TARGET * length * (length + uncles), 41 * uncles * duration, 40 * length;
    Cancel(a, b, k);
    RawLengthRaw(length, uncles, duration);
    RawNumer(length, uncles);
    RawDenom(length, uncles, duration);
  }

  lemma {:induction false} RawLengthRaw(length: nat, uncles: nat, duration: nat)
    requires length > 0 && uncles > 0 && duration > 0
    ensures (40 * length) * (uncles * 41 * duration) > 0
    ensures RawLength(length, uncles, duration) ==
            ((1 * (uncles + length)) * EPOCH_DURATION_TARGET * length * (length * 40 * 1)) /
            (((40 * length) * 1 * 1) * (uncles * 41 * duration))
  {
    MulPositive(uncles * 41, duration);
    MulPositive(40 * length, uncles * 41 * duration);
  }

  lemma {:induction false} RawNumer(length: nat, uncles: nat)
    ensures (1 * (uncles + length)) * EPOCH_DURATION_TARGET * length * (length * 40 * 1) ==
            (EPOCH_DURATION_TARGET * length * (length + uncles)) * (40 * length)
  {
    var x := (uncles + length) * EPOCH_DURATION_TARGET * length;
    assert x == EPOCH_DURATION_TARGET * length * (length + uncles);
  }

  lemma {:induction false} RawDenom(length: nat, uncles: nat, duration: nat)
    ensures ((40 * length) * 1 * 1) * (uncles * 41 * duration) == (41 * uncles * duration) * (40 * length)
  {
    assert uncles * 41 * duration == 41 * uncles * duration;
  }

  /** The raw length fits 64 bits, so taking the low word loses nothing. */
  lemma {:induction false} RawLengthFits(length: nat, uncles: nat, duration: nat)
    requires 0 < length <= MAX_EPOCH_LENGTH && uncles > 0 && duration > 0
    ensures LowU64(RawLength(length, uncles, duration)) == RawLength(length, uncles, duration)
  {
    RawLengthIs(length, uncles, duration);
    RawTop(length, uncles);
    MulMono(1, 41 * duration, uncles);
    assert (41 * duration) * uncles == 41 * uncles * duration;
    DivAtMost(EPOCH_DURATION_TARGET * length * (length + uncles), 41 * uncles * duration,
              EPOCH_DURATION_TARGET * MAX_EPOCH_LENGTH * (MAX_EPOCH_LENGTH + 1), uncles);
    SmallMod(RawLength(length, uncles, duration), U64_LIMIT);
  }

  lemma {:induction false} RawTop(length: nat, uncles: nat)
    requires 0 < length <= MAX_EPOCH_LENGTH && uncles > 0
    ensures EPOCH_DURATION_TARGET * length * (length + uncles) <=
            EPOCH_DURATION_TARGET * MAX_EPOCH_LENGTH * (MAX_EPOCH_LENGTH + 1) * uncles
  {
    MulMono(length, MAX_EPOCH_LENGTH, length + uncles);
    MulMono(1, uncles, MAX_EPOCH_LENGTH);
    assert length + uncles <= (MAX_EPOCH_LENGTH + 1) * uncles;
  }

  /** The next length is the ideal one, kept within the bounds. */
  lemma {:induction false} NextLengthIs(length: nat, uncles: nat, duration: nat)
    requires MIN_EPOCH_LENGTH <= length <= MAX_EPOCH_LENGTH && uncles > 0 && duration > 0
    ensures 41 * uncles * duration > 0
    ensures var ideal := (EPOCH_DURATION_TARGET * length * (length + uncles)) / (41 * uncles * duration);
            var low, high := if length > 600 then length / 2 else 300, if length < 900 then length * 2 else 1800;
            NextLength(length, uncles, duration) ==
              if ideal > high then (high, true) else if ideal < low then (low, true) else (ideal, false)
  {
    RawLengthIs(length, uncles, duration);
    RawLengthFits(length, uncles, duration);
    hide RawLength, LowU64;
  }

  /** E is the rational a / b. */
  predicate Equals(e: Rational, a: nat, b: nat) {
    e.numer * b == a * e.denom
  }

  /** All blocks that the target duration should see, orphans included, cleared of fractions. */
  lemma {:induction false} ExpectedBlocksAre(length: nat, uncles: nat, duration: nat, next: nat, bound: bool)
    requires length > 0 && duration > 0 && next > 0
    ensures var e := ExpectedBlocks(length, uncles, duration, next, bound);
            var w, v := EPOCH_DURATION_TARGET * length * (length + uncles), uncles * duration * next;
            if !bound then Equals(e, 41 * next, 40)
            else if uncles == 0 then Equals(e, next, 1)
            else if w <= v then Equals(e, 41 * next, 40)
            else Equals(e, w * next, w - v)
  {
    if bound && uncles > 0 {
      MulPositive(uncles, duration);
      MulPositive(uncles * duration, next);
      Estimated(length, uncles, duration, next);
    }
  }

  function RateQuotient(length: nat, uncles: nat, duration: nat, next: nat): Rational
    requires length > 0 && uncles > 0 && duration > 0 && next > 0
  {
    var rate := Rational(uncles, length);
    MulPositive(uncles, duration);
    MulPositive(uncles * duration, next);
    Div(Mul(Mul(AddOne(rate), Whole(EPOCH_DURATION_TARGET)), Whole(length)),
        Mul(Mul(rate, Whole(duration)), Whole(next)))
  }

  lemma {:induction false} QuotientIs(length: nat, uncles: nat, duration: nat, next: nat)
    requires length > 0 && uncles > 0 && duration > 0 && next > 0
    ensures var q := RateQuotient(length, uncles, duration, next);
            && q.numer == (EPOCH_DURATION_TARGET * length * (length + uncles)) * length
            && q.denom == (uncles * duration * next) * length
  {
    var x := (uncles + length) * EPOCH_DURATION_TARGET * length;
    assert x == EPOCH_DURATION_TARGET * length * (length + uncles);
  }

  /** Subtracting one, taking the reciprocal and adding one turns w/v into w/(w - v). */
  lemma {:induction false} ShiftedRecip(q: Rational, next: nat)
    requires q.numer > q.denom
    ensures SubOne(q).numer > 0
    ensures var e := Mul(AddOne(Div(Whole(1), SubOne(q))), Whole(next));
            e.numer == q.numer * next && e.denom == q.numer - q.denom
  {
  }

  lemma {:induction false} Estimated(length: nat, uncles: nat, duration: nat, next: nat)
    requires length > 0 && uncles > 0 && duration > 0 && next > 0
    ensures var e := ExpectedBlocks(length, uncles, duration, next, true);
            var w, v := EPOCH_DURATION_TARGET * length * (length + uncles), uncles * duration * next;
            if w <= v then Equals(e, 41 * next, 40) else Equals(e, w * next, w - v)
  {
    var w, v, q := EPOCH_DURATION_TARGET * length * (length + uncles), uncles * duration * next, RateQuotient(length,
            uncles, duration, next);
    QuotientIs(length, uncles, duration, next);
    if w <= v {
      MulMono(w, v, length);
    } else {
      MulStrict(v, w, length);
      ShiftedRecip(q, next);
      Scale(w, v, length, next);
    }
  }

  /** The next difficulty is the largest whole number whose expected work fits what the hash rate achieves. */
  lemma {:induction false} DifficultyIs(rate: nat, expected: Rational)
    requires expected.numer > 0
    ensures var d, work := NextDifficulty(rate, expected), rate * EPOCH_DURATION_TARGET * expected.denom;
            if work > expected.numer then d * expected.numer <= work < (d + 1) * expected.numer else d == 1
  {
    DivBounds(rate * EPOCH_DURATION_TARGET * expected.denom, 1 * expected.numer);
  }

  // ---------------------------------------------------------------- the adjustment as a whole

  /** The last epoch took d whole seconds, or none and d is 1; a clock that went back counts as none. */
  predicate TookSeconds(o: Observation, d: nat) {
    if o.timestamp < o.startTimestamp + 1000 then d == 1
    else 1000 * d <= o.timestamp - o.startTimestamp < 1000 * (d + 1)
  }

  lemma {:induction false} DurationIs(o: Observation)
    ensures TookSeconds(o, Duration(o))
  {
  }

  /** What the blocks of an epoch and its orphans would be worth over the target duration, in block seconds. */
  function Weight(length: nat, uncles: nat): nat {
    14400 * length * (length + uncles)
  }

  /** The number of times that `each` goes into the weight, rounded down and kept in range; or what bounds it. */
  predicate RoundsTo(weight: nat, each: nat, low: nat, high: nat, next: nat, bound: bool) {
    if (high + 1) * each <= weight then next == high && bound
    else if weight < low * each then next == low && bound
    else next * each <= weight < (next + 1) * each && !bound
  }

  /** The next length: the ideal one, kept between half and twice the last and between 300 and 1800. */
  predicate IsNextLength(length: nat, uncles: nat, d: nat, next: nat, bound: bool) {
    var low, high := Max(300, length / 2), Min(1800, 2 * length);
    if uncles == 0 then next == high && bound
    else RoundsTo(Weight(length, uncles), 41 * uncles * d, low, high, next, bound)
  }

  lemma {:induction false} Rounded(weight: nat, each: nat, low: nat, high: nat)
    requires each > 0 && 0 < low <= high
    ensures var ideal := weight / each;
            RoundsTo(weight, each, low, high, Max(low, Min(high, ideal)), ideal > high || ideal < low)
  {
    DivBounds(weight, each);
    DivLess(weight, each, high);
    DivLess(weight, each, low - 1);
  }

  lemma {:induction false} NextLengthFrom(length: nat, uncles: nat, d: nat)
    requires MIN_EPOCH_LENGTH <= length <= MAX_EPOCH_LENGTH && d > 0
    ensures IsNextLength(length, uncles, d, NextLength(length, uncles, d).0, NextLength(length, uncles, d).1)
  {
    if uncles > 0 {
      NextLengthIs(length, uncles, d);
      hide NextLength, RoundsTo;
      Rounded(Weight(length, uncles), 41 * uncles * d, Max(300, length / 2), Min(1800, 2 * length));
    }
  }

  /** The observed hash rate, damped to between half and twice the one before, and at least 1. */
  predicate IsRate(previous: nat, length: nat, difficulty: nat, uncles: nat, d: nat, rate: nat)
    requires d > 0
  {
    var seen := difficulty * (length + uncles) / d;
    rate == Max(1, if previous == 0 then seen else Max(previous / 2, Min(2 * previous, seen)))
  }

  lemma {:induction false} RateFrom(previous: nat, length: nat, difficulty: nat, uncles: nat, d: nat)
    requires d > 0
    ensures IsRate(previous, length, difficulty, uncles, d, AdjustedHashRate(previous, length, difficulty, uncles, d))
  {
  }

  /**
    The difficulty at which the hash rate finds, in the target duration, the blocks of the next epoch
    and the orphans to be expected, rounded down: a/b blocks in all. Orphans are taken to be one in 40
    where the length is the ideal one, or none if there were none.
   */
  predicate IsDifficulty(length: nat, uncles: nat, d: nat, next: nat, bound: bool, rate: nat, w: nat) {
    var v := uncles * d * next;
    var (a, b) :=
      if bound && uncles == 0 then (next, 1)
      else if !bound || Weight(length, uncles) <= v then (41 * next, 40)
      else (Weight(length, uncles) * next, Weight(length, uncles) - v);
    var work := rate * 14400 * b;
    if work <= a then w == 1 else w * a <= work < (w + 1) * a
  }

  lemma {:induction false} DifficultyFrom(length: nat, uncles: nat, d: nat, next: nat, bound: bool, rate: nat)
    requires length > 0 && d > 0 && next > 0
    ensures IsDifficulty(length, uncles, d, next, bound, rate,
                         NextDifficulty(rate, ExpectedBlocks(length, uncles, d, next, bound)))
  {
    var e, v := ExpectedBlocks(length, uncles, d, next, bound), uncles * d * next;
    ExpectedBlocksAre(length, uncles, d, next, bound);
    DifficultyIs(rate, e);
    var (a, b) :=
      if bound && uncles == 0 then (next, 1)
      else if !bound || Weight(length, uncles) <= v then (41 * next, 40)
      else (Weight(length, uncles) * next, Weight(length, uncles) - v);
    var work, w := rate * EPOCH_DURATION_TARGET, NextDifficulty(rate, e);
    hide ExpectedBlocks, NextDifficulty;
    assert Equals(e, a, b);
    SameRatio(e.numer, e.denom, a, b, 1, work);
    SameRatio(e.numer, e.denom, a, b, w, work);
    SameRatio(e.numer, e.denom, a, b, w + 1, work);
  }

  /**
    The whole adjustment from what was observed: with the d seconds that the last epoch took, the
    next length, the damped hash rate, and the difficulty w that the header's target encodes.
   */
  lemma {:induction false} NextEpochIs(k: Consensus, e: EpochExt, o: Observation, next: EpochExt)
      returns (d: nat, bound: bool, w: nat)
    requires Step(k, e, o, next) && MIN_EPOCH_LENGTH <= e.length <= MAX_EPOCH_LENGTH
    ensures d > 0 && TookSeconds(o, d)
    ensures var uncles := o.lastUncles - o.startUncles;
            && IsNextLength(e.length, uncles, d, next.length, bound)
            && IsRate(e.previousHashRate, e.length, o.difficulty, uncles, d, next.previousHashRate)
            && IsDifficulty(e.length, uncles, d, next.length, bound, next.previousHashRate, w)
            && w > 0 && next.compactTarget == DifficultyToCompact(w)
  {
    hide NextEpochExt, NextLength, ExpectedBlocks, NextDifficulty, AdjustedHashRate, IsNextLength, IsRate, IsDifficulty,
         Duration, TookSeconds, DifficultyToCompact;
    var uncles := o.lastUncles - o.startUncles;
    d := Duration(o);
    bound := NextLength(e.length, uncles, d).1;
    StepFacts(k, e, o, next);
    StepTarget(k, e, o, next);
    DurationIs(o);
    NextLengthFrom(e.length, uncles, d);
    RateFrom(e.previousHashRate, e.length, o.difficulty, uncles, d);
    DifficultyFrom(e.length, uncles, d, next.length, bound, next.previousHashRate);
    w := NextDifficulty(next.previousHashRate, ExpectedBlocks(e.length, uncles, d, next.length, bound));
  }

  /** An epoch is followed by the next one exactly at its last block. */
  lemma {:induction false} EndsAtLast(k: Consensus, e: EpochExt, o: Observation)
    requires e.length > 0 && o.startUncles <= o.lastUncles
    requires k.halvingInterval > 0 && (e.number + 1) / k.halvingInterval < 64
    ensures NextEpochExt(k, e, o).Some? <==> o.number + 1 == e.startNumber + e.length
  {
  }

  // ---------------------------------------------------------------- runs of epochs

  /** Consecutive epochs from genesis, each the next one of its predecessor. */
  ghost predicate IsRun(k: Consensus, es: seq<EpochExt>, os: seq<Observation>) {
    && k.halvingInterval > 0 && |es| == |os| + 1
    && (exists compact, length ::
          MIN_EPOCH_LENGTH <= length <= MAX_EPOCH_LENGTH && es[0] == GenesisEpochExt(k, compact, length))
    && forall i :: 0 <= i < |os| ==> Step(k, es[i], os[i], es[i + 1])
  }

  predicate Step(k: Consensus, e: EpochExt, o: Observation, next: EpochExt) {
    && k.halvingInterval > 0 && e.length > 0 && o.startUncles <= o.lastUncles && (e.number + 1) / k.halvingInterval < 64
    && NextEpochExt(k, e, o) == Some(next)
  }

  lemma {:induction false} StepFacts(k: Consensus, e: EpochExt, o: Observation, next: EpochExt)
    requires Step(k, e, o, next)
    ensures next.number == e.number + 1 && next.startNumber == e.startNumber + e.length
    ensures next.length == NextLength(e.length, o.lastUncles - o.startUncles, Duration(o)).0
    ensures next.previousHashRate > 0 && PrimaryReward(next) == RewardOfNext(k, e) && next.remainderReward < next.length
    ensures next.lastBlockHash == o.hash
  {
    hide RewardOfNext, NextLength, AdjustedHashRate, TargetOfNext, Duration;
    var reward := RewardOfNext(k, e);
    assert reward == (reward / next.length) * next.length + reward % next.length;
  }

  lemma {:induction false} GenesisFacts(k: Consensus, es: seq<EpochExt>, os: seq<Observation>)
    requires IsRun(k, es, os)
    ensures var e := es[0];
            && e.number == 0 && e.startNumber == 0 && MIN_EPOCH_LENGTH <= e.length <= MAX_EPOCH_LENGTH
            && e.remainderReward < e.length && PrimaryReward(e) == k.initialReward
  {
    hide Step, CompactToDifficulty;
    var r, n := k.initialReward, es[0].length;
    assert r == (r / n) * n + r % n;
  }

  /** The hash rate a run starts from: that of the genesis difficulty, with one orphan for every 40 blocks. */
  lemma {:induction false} GenesisRate(k: Consensus, es: seq<EpochExt>, os: seq<Observation>)
    requires IsRun(k, es, os)
    ensures var e := es[0];
            var work := Times(CompactToDifficulty(e.compactTarget), e.length + e.length / 40);
            14400 * e.previousHashRate <= work < 14400 * (e.previousHashRate + 1)
  {
    hide Step, CompactToDifficulty;
    var e := es[0];
    DivBounds(Times(CompactToDifficulty(e.compactTarget), e.length + e.length / 40), 14400);
  }

  /** Over every run: numbers count up, lengths stay in range, epochs tile the heights. */
  lemma {:induction false} RunBounds(k: Consensus, es: seq<EpochExt>, os: seq<Observation>, i: nat)
    requires IsRun(k, es, os) && i < |es|
    ensures es[i].number == i && MIN_EPOCH_LENGTH <= es[i].length <= MAX_EPOCH_LENGTH
    ensures i > 0 ==>
              && es[i].startNumber == es[i - 1].startNumber + es[i - 1].length
              && es[i - 1].length / 2 <= es[i].length <= es[i - 1].length * 2
              && es[i].previousHashRate > 0
    ensures es[i].remainderReward < es[i].length
  {
    hide NextEpochExt, NextLength, Duration;
    if i == 0 {
      GenesisFacts(k, es, os);
    } else {
      RunBounds(k, es, os, i - 1);
      var o := os[i - 1];
      assert Step(k, es[i - 1], o, es[i - 1 + 1]);
      StepFacts(k, es[i - 1], o, es[i]);
      LengthBounds(es[i - 1].length, o.lastUncles - o.startUncles, Duration(o));
    }
  }

  /** Every height below the end of the run lies in exactly one epoch. */
  lemma {:induction false} RunTiles(k: Consensus, es: seq<EpochExt>, os: seq<Observation>, n: nat)
    requires IsRun(k, es, os) && n < es[|es| - 1].startNumber + es[|es| - 1].length
    ensures exists i :: 0 <= i < |es| && Covers(es[i], n)
    ensures forall i, j :: 0 <= i < |es| && 0 <= j < |es| && Covers(es[i], n) && Covers(es[j], n) ==> i == j
  {
    FindEpoch(k, es, os, |es| - 1, n);
    forall i, j | 0 <= i < |es| && 0 <= j < |es| && Covers(es[i], n) && Covers(es[j], n) ensures i == j {
      if i < j { StartsAfter(k, es, os, i, j); }
      if j < i { StartsAfter(k, es, os, j, i); }
    }
  }

  predicate Covers(e: EpochExt, n: nat) {
    e.startNumber <= n < e.startNumber + e.length
  }

  lemma {:induction false} FindEpoch(k: Consensus, es: seq<EpochExt>, os: seq<Observation>, i: nat, n: nat)
    requires IsRun(k, es, os) && i < |es| && n < es[i].startNumber + es[i].length
    ensures exists j :: 0 <= j < |es| && Covers(es[j], n)
  {
    RunBounds(k, es, os, i);
    if Covers(es[i], n) {
    } else {
      FindEpoch(k, es, os, i - 1, n);
    }
  }

  lemma {:induction false} StartsAfter(k: Consensus, es: seq<EpochExt>, os: seq<Observation>, i: nat, j: nat)
    requires IsRun(k, es, os) && i < j < |es|
    ensures es[j].startNumber >= es[i].startNumber + es[i].length
  {
    RunBounds(k, es, os, j);
    if j > i + 1 { StartsAfter(k, es, os, i, j - 1); }
  }

  function PositionIn(e: EpochExt, n: nat): Since.Position
    requires Covers(e, n)
  {
    Since.Position(e.number, n - e.startNumber, e.length)
  }

  /** Higher blocks of a run are later in the order that since locks use. */
  lemma {:induction false} PositionsAdvance(k: Consensus, es: seq<EpochExt>, os: seq<Observation>, i: nat, j: nat,
                                            m: nat, n: nat)
    requires IsRun(k, es, os) && i < |es| && j < |es| && m <= n && Covers(es[i], m) && Covers(es[j], n)
    ensures Since.Advances(PositionIn(es[i], m), PositionIn(es[j], n))
  {
    RunBounds(k, es, os, i);
    RunBounds(k, es, os, j);
    if j < i { StartsAfter(k, es, os, j, i); }
  }

  /** The adjustment over every run. */
  lemma {:induction false} RunEpochIs(k: Consensus, es: seq<EpochExt>, os: seq<Observation>, i: nat)
      returns (d: nat, bound: bool, w: nat)
    requires IsRun(k, es, os) && 0 < i < |es|
    ensures d > 0 && TookSeconds(os[i - 1], d)
    ensures var e, o, next := es[i - 1], os[i - 1], es[i];
            var uncles := if o.startUncles <= o.lastUncles then o.lastUncles - o.startUncles else 0;
            && IsNextLength(e.length, uncles, d, next.length, bound)
            && IsRate(e.previousHashRate, e.length, o.difficulty, uncles, d, next.previousHashRate)
            && IsDifficulty(e.length, uncles, d, next.length, bound, next.previousHashRate, w)
            && w > 0 && next.compactTarget == DifficultyToCompact(w)
  {
    hide NextEpochExt, IsNextLength, IsRate, IsDifficulty, TookSeconds, DifficultyToCompact;
    RunBounds(k, es, os, i - 1);
    assert Step(k, es[i - 1], os[i - 1], es[i - 1 + 1]);
    d, bound, w := NextEpochIs(k, es[i - 1], os[i - 1], es[i]);
  }

  // ---------------------------------------------------------------- rewards

  /** The reward of epoch n is the initial one halved once per halving interval. */
  lemma {:induction false} RunReward(k: Consensus, es: seq<EpochExt>, os: seq<Observation>, i: nat)
    requires IsRun(k, es, os) && i < |es|
    ensures i / k.halvingInterval < 64 && PrimaryReward(es[i]) == RewardOfEpoch(k, i) == HalvedReward(k, i)
  {
    hide NextEpochExt, PrimaryReward, NextLength, HalvedReward;
    if i == 0 {
      GenesisFacts(k, es, os);
      SmallDiv(k.halvingInterval);
    } else {
      RunReward(k, es, os, i - 1);
      RunBounds(k, es, os, i - 1);
      assert Step(k, es[i - 1], os[i - 1], es[i - 1 + 1]);
      StepFacts(k, es[i - 1], os[i - 1], es[i]);
      if i % k.halvingInterval != 0 { SameQuotient(i - 1, k.halvingInterval); }
    }
    RewardIs(k, i);
  }

  /** The primary rewards of the first n epochs together. */
  function Issued(es: seq<EpochExt>, n: nat): nat
    requires n <= |es|
  {
    if n == 0 then 0 else Issued(es, n - 1) + PrimaryReward(es[n - 1])
  }

  /** Twice what a halving interval issues from here on, less what it has issued. */
  function Left(k: Consensus, n: nat): nat
    requires k.halvingInterval > 0 && n / k.halvingInterval < 64
  {
    Times(2 * k.halvingInterval - n % k.halvingInterval, RewardOfEpoch(k, n))
  }

  function Cap(k: Consensus): nat {
    2 * k.halvingInterval * k.initialReward
  }

  lemma {:induction false} IssuedAndLeft(k: Consensus, es: seq<EpochExt>, os: seq<Observation>, n: nat)
    requires IsRun(k, es, os) && n < |es|
    ensures n / k.halvingInterval < 64 && Issued(es, n) + Left(k, n) <= Cap(k)
  {
    hide PrimaryReward, Left, RewardOfEpoch;
    RunReward(k, es, os, n);
    if n == 0 {
      LeftStart(k);
    } else {
      RunReward(k, es, os, n - 1);
      IssuedAndLeft(k, es, os, n - 1);
      LeftStep(k, n - 1);
    }
  }

  lemma {:induction false} LeftStart(k: Consensus)
    requires k.halvingInterval > 0
    ensures 0 / k.halvingInterval == 0 && Left(k, 0) == Cap(k)
  {
    SmallDiv(k.halvingInterval);
    SmallMod(0, k.halvingInterval);
  }

  lemma {:induction false} LeftStep(k: Consensus, n: nat)
    requires k.halvingInterval > 0 && (n + 1) / k.halvingInterval < 64 && n / k.halvingInterval < 64
    ensures RewardOfEpoch(k, n) + Left(k, n + 1) <= Left(k, n)
  {
    var i, x := k.halvingInterval, RewardOfEpoch(k, n);
    if (n + 1) % i != 0 {
      SameQuotient(n, i);
      NextRemainder(n, i);
      Distribute(2 * i - n % i - 1, x);
    } else {
      NextQuotient(n, i);
      HalfTwice(i, x);
    }
  }

  /** Total primary issuance never exceeds twice what the first halving interval issues. */
  lemma {:induction false} IssuanceBounded(k: Consensus, es: seq<EpochExt>, os: seq<Observation>)
    requires IsRun(k, es, os)
    ensures Issued(es, |es|) <= 2 * k.halvingInterval * k.initialReward
  {
    hide PrimaryReward, RewardOfEpoch;
    var n := |es| - 1;
    IssuedAndLeft(k, es, os, n);
    RunReward(k, es, os, n);
    MulMono(1, 2 * k.halvingInterval - n % k.halvingInterval, RewardOfEpoch(k, n));
  }

  // ---------------------------------------------------------------- block rewards

  function BlockReward(e: EpochExt, number: nat): nat {
    if e.startNumber <= number < e.startNumber + e.remainderReward then e.baseReward + 1 else e.baseReward
  }

  /** The rewards of the first j blocks of an epoch. */
  function BlockRewards(e: EpochExt, j: nat): nat {
    if j == 0 then 0 else BlockRewards(e, j - 1) + BlockReward(e, e.startNumber + j - 1)
  }

  /** The initial reward halved once per interval. */
  function HalvedReward(k: Consensus, i: nat): nat
    requires k.halvingInterval > 0
  {
    Quotient(k.initialReward, Pow2(Quotient(i, k.halvingInterval)))
  }

  /** The even share of block j of an epoch, and one shannon more for the first blocks, for the remainder. */
  function Share(reward: nat, length: nat, j: nat): nat
    requires length > 0
  {
    reward / length + if j < reward % length then 1 else 0
  }

  /** What each block of a run earns. */
  lemma {:induction false} RunBlockReward(k: Consensus, es: seq<EpochExt>, os: seq<Observation>, i: nat, j: nat)
    requires IsRun(k, es, os) && i < |es| && j < es[i].length
    ensures BlockReward(es[i], es[i].startNumber + j) == Share(HalvedReward(k, i), es[i].length, j)
  {
    hide ShiftRight, Pow2, BlockReward, PrimaryReward, Share, NextEpochExt;
    RunBounds(k, es, os, i);
    RunReward(k, es, os, i);
    ShareOf(es[i], HalvedReward(k, i), j);
  }

  lemma {:induction false} RewardIs(k: Consensus, i: nat)
    requires k.halvingInterval > 0 && i / k.halvingInterval < 64
    ensures RewardOfEpoch(k, i) == HalvedReward(k, i)
  {
    ShiftRightIs(k.initialReward, i / k.halvingInterval);
  }

  lemma {:induction false} ShareOf(e: EpochExt, reward: nat, j: nat)
    requires PrimaryReward(e) == reward && e.remainderReward < e.length && j < e.length
    ensures BlockReward(e, e.startNumber + j) == Share(reward, e.length, j)
  {
    Distribute(e.baseReward, e.length);
    DivUnique(reward, e.length, e.baseReward);
  }

  lemma {:induction false} BlockRewardsAre(e: EpochExt, j: nat)
    ensures BlockRewards(e, j) == e.baseReward * j + (if j < e.remainderReward then j else e.remainderReward)
  {
    if j > 0 {
      BlockRewardsAre(e, j - 1);
      Distribute(j - 1, e.baseReward);
    }
  }

  /** Block by block an epoch pays out exactly its primary reward. */
  lemma {:induction false} EpochPaidOut(k: Consensus, es: seq<EpochExt>, os: seq<Observation>, i: nat)
    requires IsRun(k, es, os) && i < |es|
    ensures i / k.halvingInterval < 64
    ensures BlockRewards(es[i], es[i].length) == RewardOfEpoch(k, i) == HalvedReward(k, i)
  {
    RunBounds(k, es, os, i);
    RunReward(k, es, os, i);
    hide IsRun, RewardOfEpoch, HalvedReward;
    BlockRewardsAre(es[i], es[i].length);
  }

  // ---------------------------------------------------------------- difficulty over a run

  lemma {:induction false} AtLeastOne(length: nat, uncles: nat, duration: nat, next: nat, bound: bool)
    requires length > 0 && duration > 0 && next > 0
    ensures var e := ExpectedBlocks(length, uncles, duration, next, bound); e.numer >= e.denom
  {
    if bound && uncles > 0 {
      var q := RateQuotient(length, uncles, duration, next);
      if q.numer > q.denom {
        ShiftedRecip(q, next);
        MulMono(1, next, q.numer);
      }
    }
  }

  lemma {:induction false} DifficultyFits(rate: nat, expected: Rational)
    requires expected.numer >= expected.denom && 0 < rate * EPOCH_DURATION_TARGET < U256_LIMIT
    ensures NextDifficulty(rate, expected) < U256_LIMIT
  {
    var work := rate * EPOCH_DURATION_TARGET;
    DivAtMost(work * expected.denom, 1 * expected.numer, work, expected.denom);
  }

  /** In every epoch after genesis the difficulty read back from the header is at least one. */
  lemma {:induction false} RunDifficulty(k: Consensus, es: seq<EpochExt>, os: seq<Observation>, i: nat)
    requires IsRun(k, es, os) && 0 < i < |es| && es[i].previousHashRate * EPOCH_DURATION_TARGET < U256_LIMIT
    ensures CompactToDifficulty(es[i].compactTarget) >= 1
  {
    hide NextEpochExt, AdjustedHashRate, NextLength, NextDifficulty, ExpectedBlocks, DifficultyToCompact,
         CompactToDifficulty, Duration;
    var e, o := es[i - 1], os[i - 1];
    assert Step(k, e, o, es[i - 1 + 1]);
    StepTarget(k, e, o, es[i]);
    var uncles, duration, rate := o.lastUncles - o.startUncles, Duration(o), es[i].previousHashRate;
    var (next, bound) := NextLength(e.length, uncles, duration);
    var expected := ExpectedBlocks(e.length, uncles, duration, next, bound);
    AtLeastOne(e.length, uncles, duration, next, bound);
    DifficultyFits(rate, expected);
    DifficultyKept(NextDifficulty(rate, expected));
  }

  lemma {:induction false} StepTarget(k: Consensus, e: EpochExt, o: Observation, next: EpochExt)
    requires Step(k, e, o, next)
    ensures var uncles, duration := o.lastUncles - o.startUncles, Duration(o);
            && next.previousHashRate == AdjustedHashRate(e.previousHashRate, e.length, o.difficulty, uncles, duration)
            && next.compactTarget == TargetOfNext(e, o.difficulty, uncles, duration)
  {
    hide AdjustedHashRate, TargetOfNext, NextLength, RewardOfNext, Duration;
  }
}
