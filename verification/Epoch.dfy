/**
  Epochs: the difficulty and length of the next epoch from what the last one observed, and the
  reward it issues. Rationals are exact; 256-bit overflow is not part of this model.
 */
module Epoch {
  import opened Types
  import opened Arithmetic
  import opened Difficulty

  const TAU: nat := 2
  const MAX_EPOCH_LENGTH: nat := 1800
  const MIN_EPOCH_LENGTH: nat := 300
  const EPOCH_DURATION_TARGET: nat := 14400
  const MILLISECONDS_IN_A_SECOND: nat := 1000

  // ---------------------------------------------------------------- rationals

  datatype RawRational = Rational(numer: nat, denom: nat)

  type Rational = r: RawRational | r.denom > 0 witness Rational(0, 1)

  const ORPHAN_RATE_TARGET: Rational := Rational(1, 40)

  function Whole(n: nat): Rational {
    Rational(n, 1)
  }

  function Mul(a: Rational, b: Rational): Rational {
    MulPositive(a.denom, b.denom);
    Rational(a.numer * b.numer, a.denom * b.denom)
  }

  function Div(a: Rational, b: Rational): Rational
    requires b.numer > 0
  {
    MulPositive(a.denom, b.numer);
    Rational(a.numer * b.denom, a.denom * b.numer)
  }

  function AddOne(a: Rational): Rational {
    Rational(a.numer + a.denom, a.denom)
  }

  /** Subtraction of one that stops at zero. */
  function SubOne(a: Rational): Rational {
    if a.numer < a.denom then Rational(0, 1) else Rational(a.numer - a.denom, a.denom)
  }

  function Floor(a: Rational): nat {
    a.numer / a.denom
  }

  predicate Greater(a: Rational, b: Rational) {
    a.numer * b.denom > b.numer * a.denom
  }

  // ---------------------------------------------------------------- the next epoch

  datatype EpochExt = EpochExt(
    number: nat,
    baseReward: nat,
    remainderReward: nat,
    previousHashRate: nat,
    lastBlockHash: Hash,
    startNumber: nat,
    length: nat,
    compactTarget: nat)

  datatype Consensus = Consensus(initialReward: nat, halvingInterval: nat)

  /** What the chain says at the last block of an epoch: times in milliseconds, uncle totals at both ends. */
  datatype Observation = Observation(
    number: nat,
    hash: Hash,
    difficulty: nat,
    timestamp: nat,
    startTimestamp: nat,
    startUncles: nat,
    lastUncles: nat)

  function BoundingHashRate(rate: nat, previous: nat): nat {
    if previous == 0 then rate
    else if rate < previous / TAU then previous / TAU
    else if rate > previous * TAU then previous * TAU
    else rate
  }

  function BoundingEpochLength(length: nat, last: nat): (nat, bool) {
    var longest := if MAX_EPOCH_LENGTH < last * TAU then MAX_EPOCH_LENGTH else last * TAU;
    var shortest := if MIN_EPOCH_LENGTH > last / TAU then MIN_EPOCH_LENGTH else last / TAU;
    if length > longest then (longest, true)
    else if length < shortest then (shortest, true)
    else (length, false)
  }

  function LowU64(n: nat): nat {
    n % U64_LIMIT
  }

  function Duration(o: Observation): (d: nat)
    ensures d > 0
  {
    var elapsed := if o.timestamp < o.startTimestamp then 0 else o.timestamp - o.startTimestamp;
    var seconds := elapsed / MILLISECONDS_IN_A_SECOND;
    if seconds < 1 then 1 else seconds
  }

  /** The adjusted hash rate is never zero. */
  function AdjustedHashRate(previous: nat, length: nat, difficulty: nat, uncles: nat, duration: nat): (rate: nat)
    requires duration > 0
    ensures rate > 0
  {
    var bounded := BoundingHashRate(difficulty * (length + uncles) / duration, previous);
    if bounded < 1 then 1 else bounded
  }

  /** The length that would meet the ideal orphan rate, before bounding and truncation. */
  function RawLength(length: nat, uncles: nat, duration: nat): nat
    requires length > 0 && uncles > 0 && duration > 0
  {
    var rate := Rational(uncles, length);
    var numerator := Mul(Mul(Mul(ORPHAN_RATE_TARGET, AddOne(rate)), Whole(EPOCH_DURATION_TARGET)), Whole(length));
    var denominator := Mul(Mul(rate, AddOne(ORPHAN_RATE_TARGET)), Whole(duration));
    MulPositive(uncles, 41);
    MulPositive(uncles * 41, duration);
    Floor(Div(numerator, denominator))
  }

  function NextLength(length: nat, uncles: nat, duration: nat): (r: (nat, bool))
    requires length > 0 && duration > 0
    ensures r.0 > 0
  {
    if uncles == 0
    then (if MAX_EPOCH_LENGTH < length * TAU then MAX_EPOCH_LENGTH else length * TAU, true)
    else BoundingEpochLength(LowU64(RawLength(length, uncles, duration)), length)
  }

  /** Expected blocks of the next epoch, orphans included. */
  function ExpectedBlocks(length: nat, uncles: nat, duration: nat, next: nat, bound: bool): (r: Rational)
    requires length > 0 && duration > 0 && next > 0
    ensures r.numer > 0
  {
    if !bound then
      MulPositive(41, next);
      Mul(AddOne(ORPHAN_RATE_TARGET), Whole(next))
    else if uncles == 0 then Whole(next)
    else
      var rate := Rational(uncles, length);
      MulPositive(uncles, duration);
      MulPositive(uncles * duration, next);
      var recip := SubOne(Div(Mul(Mul(AddOne(rate), Whole(EPOCH_DURATION_TARGET)), Whole(length)),
                              Mul(Mul(rate, Whole(duration)), Whole(next))));
      if recip.numer == 0 then
        MulPositive(41, next);
        Mul(AddOne(ORPHAN_RATE_TARGET), Whole(next))
      else
        var estimate := AddOne(Div(Whole(1), recip));
        MulPositive(estimate.numer, next);
        Mul(estimate, Whole(next))
  }

  /** The next difficulty cannot be zero. */
  function NextDifficulty(rate: nat, expected: Rational): (d: nat)
    requires expected.numer > 0
    ensures d > 0
  {
    var work := Whole(rate * EPOCH_DURATION_TARGET);
    DivBounds(work.numer * expected.denom, 1 * expected.numer);
    if Greater(work, expected) then Floor(Div(work, expected)) else 1
  }

  function PrimaryReward(e: EpochExt): nat {
    e.baseReward * e.length + e.remainderReward
  }

  /** A shift by 64 or more is an arithmetic overflow. */
  function RewardOfEpoch(k: Consensus, n: nat): nat
    requires k.halvingInterval > 0 && n / k.halvingInterval < 64
  {
    ShiftRight(k.initialReward, n / k.halvingInterval)
  }

  function RewardOfNext(k: Consensus, e: EpochExt): nat
    requires k.halvingInterval > 0 && (e.number + 1) / k.halvingInterval < 64
  {
    if (e.number + 1) % k.halvingInterval != 0 then PrimaryReward(e) else RewardOfEpoch(k, e.number + 1)
  }

  function TargetOfNext(last: EpochExt, difficulty: nat, uncles: nat, duration: nat): nat
    requires last.length > 0 && duration > 0
  {
    var rate := AdjustedHashRate(last.previousHashRate, last.length, difficulty, uncles, duration);
    var (length, bound) := NextLength(last.length, uncles, duration);
    DifficultyToCompact(NextDifficulty(rate, ExpectedBlocks(last.length, uncles, duration, length, bound)))
  }

  function NextEpochExt(k: Consensus, last: EpochExt, o: Observation): Option<EpochExt>
    requires last.length > 0 && o.startUncles <= o.lastUncles
    requires k.halvingInterval > 0 && (last.number + 1) / k.halvingInterval < 64
  {
    if o.number != last.startNumber + last.length - 1 then None else
    var uncles, duration := o.lastUncles - o.startUncles, Duration(o);
    var length := NextLength(last.length, uncles, duration).0;
    var reward := RewardOfNext(k, last);
    Some(EpochExt(last.number + 1, Quotient(reward, length), Remainder(reward, length),
                  AdjustedHashRate(last.previousHashRate, last.length, o.difficulty, uncles, duration),
                  o.hash, o.number + 1, length, TargetOfNext(last, o.difficulty, uncles, duration)))
  }

  function GenesisEpochExt(k: Consensus, compactTarget: nat, length: nat): EpochExt
    requires length > 0
  {
    EpochExt(0, Quotient(k.initialReward, length), Remainder(k.initialReward, length),
             Quotient(Times(CompactToDifficulty(compactTarget), length + length / 40), EPOCH_DURATION_TARGET),
             ZERO_HASH, 0, length, compactTarget)
  }
}
