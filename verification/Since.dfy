/**
  Since locks: an input can demand a block number, an epoch position or a median time, absolute
  or counted from the block of the cell it spends. What passes once passes on every extension.
 */
module Since {
  import opened Types
  import opened Arithmetic
  import opened MedianTime

  const LOCK_TYPE_FLAG: nat := 0x8000_0000_0000_0000
  const METRIC_UNIT: nat := 0x2000_0000_0000_0000
  const VALUE_LIMIT: nat := 0x100_0000_0000_0000

  /** Where a block stands in its epoch. */
  datatype Position = Position(number: nat, index: nat, length: nat)

  datatype Metric = BlockNumber(number: nat) | Epoch(at: Position) | Timestamp(time: nat) | Invalid

  predicate IsAbsolute(since: nat) {
    (since / LOCK_TYPE_FLAG) % 2 == 0
  }

  function MetricFlag(since: nat): nat {
    (since / METRIC_UNIT) % 4
  }

  /** No reserved bit is set, and the metric is one of the three. */
  predicate FlagsValid(since: nat) {
    (since / VALUE_LIMIT) % 32 == 0 && MetricFlag(since) != 3
  }

  /** A position packed into 24, 16 and 16 bits; a zero length counts as the start of an epoch. */
  function PositionOf(value: nat): Position {
    var number, index := value % 0x100_0000, (value / 0x100_0000) % 0x1_0000;
    var length := (value / 0x100_0000_0000) % 0x1_0000;
    if length == 0 then Position(number, 0, 1) else Position(number, index, length)
  }

  function ExtractMetric(since: nat): Metric {
    var value := since % VALUE_LIMIT;
    match MetricFlag(since)
    case 0 => BlockNumber(value)
    case 1 => Epoch(PositionOf(value))
    case 2 => Timestamp(value * 1000)
    case _ => Invalid
  }

  /** Comparison of positions as the source orders them. */
  predicate Before(a: Position, b: Position) {
    a.number < b.number || (a.number == b.number && a.index * b.length < b.index * a.length)
  }

  /** The numerator of `number + index / length` over the length. */
  function Numer(a: Position): nat {
    a.number * a.length + a.index
  }

  /** The numerator of a sum of positions over the product of the lengths. */
  function SumNumer(b: Position, c: Position): nat {
    Numer(b) * c.length + Numer(c) * b.length
  }

  /** As a rational, a falls short of the sum of the two others. */
  predicate ShortOf(a: Position, b: Position, c: Position) {
    Numer(a) * (b.length * c.length) < SumNumer(b, c) * a.length
  }

  /** Where the transaction would be committed: on top of these timestamps, at this position. */
  datatype Place = Place(times: seq<nat>, epoch: Position)

  /** The block that commits the cell: one of the chain, or the block of the transaction itself. */
  datatype CellInfo = CellInfo(number: nat, epoch: Position)

  /** `Stops`: a 64-bit sum overflows, or the parent of genesis is asked for. */
  datatype Outcome = Passed | Immature | InvalidSince | Stops

  predicate PlaceOk(p: Place) {
    p.times != [] && p.epoch.length > 0
  }

  ghost function VerifyAbsolute(p: Place, since: nat): Outcome
    requires PlaceOk(p)
  {
    match ExtractMetric(since)
    case BlockNumber(n) => if |p.times| < n then Immature else Passed
    case Epoch(e) => if Before(p.epoch, e) then Immature else Passed
    case Timestamp(t) =>
      if t >= U64_LIMIT then Stops else if MedianAt(p.times, |p.times| - 1) < t then Immature else Passed
    case Invalid => InvalidSince
  }

  ghost function VerifyRelative(p: Place, since: nat, info: Option<CellInfo>): Outcome
    requires PlaceOk(p) && (info.Some? ==> info.value.number <= |p.times|)
  {
    if info.None? then Immature else
    match ExtractMetric(since)
    case BlockNumber(n) => if |p.times| < info.value.number + n then Immature else Passed
    case Epoch(e) => if ShortOf(p.epoch, info.value.epoch, e) then Immature else Passed
    case Timestamp(t) =>
      if t >= U64_LIMIT || info.value.number == 0 then Stops else
      var base := MedianAt(p.times, info.value.number - 1);
      if base + t >= U64_LIMIT then Stops
      else if MedianAt(p.times, |p.times| - 1) < base + t then Immature
      else Passed
    case Invalid => InvalidSince
  }

  ghost function VerifyInput(p: Place, since: nat, info: Option<CellInfo>): Outcome
    requires PlaceOk(p) && (info.Some? ==> info.value.number <= |p.times|)
  {
    if since == 0 then Passed
    else if !FlagsValid(since) then InvalidSince
    else if IsAbsolute(since) then VerifyAbsolute(p, since)
    else VerifyRelative(p, since, info)
  }

  /** The least number of seconds whose milliseconds do not fit 64 bits. */
  const FIRST_TOO_MANY_SECONDS: nat := 18446744073709552

  /**
    Exactly which inputs stop the verifier: time locks of too many seconds; relative ones on a
    cell of genesis, even for no time at all; and those that overflow when the median time before
    the cell's block is added. The block number and epoch metrics never do.
   */
  lemma {:induction false} StopsExactly(p: Place, since: nat, info: Option<CellInfo>)
    requires PlaceOk(p) && (info.Some? ==> info.value.number <= |p.times|)
    ensures VerifyInput(p, since, info) == Stops <==>
            && FlagsValid(since) && MetricFlag(since) == 2 && (IsAbsolute(since) || info.Some?)
            && var seconds := since % VALUE_LIMIT;
               || seconds >= FIRST_TOO_MANY_SECONDS
               || (!IsAbsolute(since) && info.value.number == 0)
               || (!IsAbsolute(since) && MedianAt(p.times, info.value.number - 1) + seconds * 1000 >= U64_LIMIT)
  {
    hide FlagsValid, IsAbsolute;
    assert MetricFlag(0) == 0;
    var seconds := since % VALUE_LIMIT;
    assert seconds * 1000 >= U64_LIMIT <==> seconds >= FIRST_TOO_MANY_SECONDS;
  }

  // ---------------------------------------------------------------- extensions

  /** The next block of the same epoch, or the first of the next one. */
  predicate Advances(a: Position, b: Position) {
    && a.index < a.length && b.index < b.length
    && ((b.number == a.number && b.length == a.length && a.index <= b.index) || b.number > a.number)
  }

  /** The second place is on a chain that extends the first. */
  ghost predicate ExtendedTo(p: Place, q: Place) {
    p.times <= q.times && TimesOk(q.times) && Advances(p.epoch, q.epoch)
  }

  lemma {:induction false} BeforeLater(a: Position, b: Position, e: Position)
    requires Advances(a, b) && !Before(a, e)
    ensures !Before(b, e)
  {
    if b.number == e.number && a.number == b.number { MulMono(a.index, b.index, e.length); }
  }

  /** A later position has no smaller rational value. */
  lemma {:induction false} ValueGrows(a: Position, b: Position)
    requires Advances(a, b)
    ensures Numer(a) * b.length <= Numer(b) * a.length
  {
    if b.number == a.number && b.length == a.length {
      MulMono(Numer(a), Numer(b), a.length);
    } else {
      var top := b.number * a.length;
      assert Numer(a) <= top by {
        MulMono(a.number + 1, b.number, a.length);
        Distribute(a.number, a.length);
      }
      MulMono(Numer(a), top, b.length);
      Swap(b.number, a.length, b.length);
      MulMono(b.number * b.length, Numer(b), a.length);
    }
  }

  lemma {:induction false} ShortLater(a: Position, b: Position, c: Position, e: Position)
    requires Advances(a, b) && !ShortOf(a, c, e)
    ensures !ShortOf(b, c, e)
  {
    hide Numer, SumNumer;
    ValueGrows(a, b);
    Chain(Numer(a), a.length, Numer(b), b.length, c.length * e.length, SumNumer(c, e));
  }

  lemma {:induction false} MedianLater(p: Place, q: Place, n: nat)
    requires p.times != [] && p.times <= q.times && TimesOk(q.times) && n < |p.times|
    ensures MedianAt(q.times, n) == MedianAt(p.times, n)
    ensures MedianAt(p.times, |p.times| - 1) <= MedianAt(q.times, |q.times| - 1)
  {
    MedianPrefix(p.times, q.times, n);
    MedianPrefix(p.times, q.times, |p.times| - 1);
    MedianMonotone(q.times, |p.times| - 1, |q.times| - 1);
  }

  /** An input whose lock is met stays met, whatever is built on top. */
  lemma {:induction false} PassedStays(p: Place, q: Place, since: nat, info: Option<CellInfo>)
    requires PlaceOk(p) && PlaceOk(q) && ExtendedTo(p, q) && (info.Some? ==> info.value.number <= |p.times|)
    requires VerifyInput(p, since, info) == Passed
    ensures VerifyInput(q, since, info) == Passed
  {
    hide Before, ShortOf, TimesOk, FlagsValid, IsAbsolute;
    MedianLater(p, q, 0);
    match ExtractMetric(since)
    case Epoch(e) =>
      if !Before(p.epoch, e) { BeforeLater(p.epoch, q.epoch, e); }
      if info.Some? && !ShortOf(p.epoch, info.value.epoch, e) { ShortLater(p.epoch, q.epoch, info.value.epoch, e); }
    case Timestamp(t) =>
      if info.Some? && info.value.number > 0 { MedianLater(p, q, info.value.number - 1); }
    case _ =>
  }

  // ---------------------------------------------------------------- the verifier

  datatype SinceInput = SinceInput(since: nat, info: Option<CellInfo>, block: Hash)

  /** The block that commits the cell is on the chain of the parent, or is the block on top of it. */
  ghost predicate InputOk(hs: map<Hash, Stamp>, parent: Hash, x: SinceInput)
    requires Chained(hs) && parent in hs
  {
    x.info.Some? ==>
      && x.block in hs && hs[x.block].number == x.info.value.number
      && if hs[x.block].number == 0 then Stamps(hs, x.block) <= Stamps(hs, parent) else Follows(hs, parent, x.block)
  }

  ghost predicate Follows(hs: map<Hash, Stamp>, parent: Hash, block: Hash)
    requires Chained(hs) && parent in hs && block in hs
  {
    Below(hs, block) && Stamps(hs, hs[block].parent) <= Stamps(hs, parent)
  }

  ghost function PlaceOf(hs: map<Hash, Stamp>, parent: Hash, epoch: Position): Place
    requires Chained(hs) && parent in hs
  {
    Place(Stamps(hs, parent), epoch)
  }

  ghost function OutcomeOf(hs: map<Hash, Stamp>, parent: Hash, epoch: Position, x: SinceInput): Outcome
    requires Chained(hs) && parent in hs && epoch.length > 0 && InputOk(hs, parent, x)
  {
    VerifyInput(PlaceOf(hs, parent, epoch), x.since, x.info)
  }

  /** The median time before a cell's block is the one at the height below, on the same chain. */
  lemma {:induction false} CellMedian(hs: map<Hash, Stamp>, parent: Hash, block: Hash)
    requires Chained(hs) && parent in hs && block in hs && hs[block].number > 0 && Follows(hs, parent, block)
    ensures var up := hs[block].parent;
            up in hs && MedianAt(Stamps(hs, up), hs[up].number) == MedianAt(Stamps(hs, parent), hs[block].number - 1)
  {
    MedianPrefix(Stamps(hs, hs[block].parent), Stamps(hs, parent), hs[block].number - 1);
  }

  // ---------------------------------------------------------------- what the locks mean

  /** The bit of a relative lock. */
  function Side(relative: bool): nat {
    if relative then 0x8000_0000_0000_0000 else 0
  }

  function Met(met: bool): Outcome {
    if met then Passed else Immature
  }

  /** The parts of a since value. */
  lemma {:induction false} SinceFields(since: nat, relative: bool, metric: nat, reserved: nat, value: nat)
    requires metric < 4 && reserved < 32 && value < VALUE_LIMIT
    requires since == Side(relative) + metric * METRIC_UNIT + reserved * VALUE_LIMIT + value
    ensures FlagsValid(since) <==> reserved == 0 && metric < 3
    ensures (IsAbsolute(since) <==> !relative) && MetricFlag(since) == metric && since % VALUE_LIMIT == value
  {
    assert since / VALUE_LIMIT == (if relative then 128 else 0) + metric * 32 + reserved;
  }

  /** A reserved bit, or the fourth metric, makes a since value invalid; no value at all is always met. */
  lemma {:induction false} FlagsMean(hs: map<Hash, Stamp>, parent: Hash, epoch: Position, x: SinceInput, relative: bool,
                                     metric: nat, reserved: nat, value: nat)
    requires Chained(hs) && parent in hs && epoch.length > 0 && InputOk(hs, parent, x)
    requires metric < 4 && reserved < 32 && value < 0x100_0000_0000_0000
    requires x.since ==
             Side(relative) + metric * 0x2000_0000_0000_0000 + reserved * 0x100_0000_0000_0000 + value
    ensures OutcomeOf(hs, parent, epoch, x) == InvalidSince <==> reserved > 0 || metric == 3
    ensures x.since == 0 ==> OutcomeOf(hs, parent, epoch, x) == Passed
    ensures relative && reserved == 0 && metric < 3 && x.info.None? ==> OutcomeOf(hs, parent, epoch, x) == Immature
  {
    hide Before, ShortOf, PositionOf, InputOk, FlagsValid, IsAbsolute, MetricFlag;
    SinceFields(x.since, relative, metric, reserved, value);
  }

  /** A number lock is met from the given height on, or from so many blocks above the cell on. */
  lemma {:induction false} NumberLockMeans(hs: map<Hash, Stamp>, parent: Hash, epoch: Position, x: SinceInput,
                                           relative: bool, value: nat)
    requires Chained(hs) && parent in hs && epoch.length > 0 && InputOk(hs, parent, x)
    requires x.since == Side(relative) + value && value < 0x100_0000_0000_0000 && (relative ==> x.info.Some?)
    ensures var height, base := hs[parent].number + 1, if relative then x.info.value.number else 0;
            OutcomeOf(hs, parent, epoch, x) == Met(height >= base + value)
  {
    hide Before, ShortOf, PositionOf, FlagsValid, IsAbsolute;
    SinceFields(x.since, relative, 0, 0, value);
  }

  /** An absolute epoch lock is met from the position on that its three fields give. */
  lemma {:induction false} EpochLockMeans(hs: map<Hash, Stamp>, parent: Hash, epoch: Position, x: SinceInput,
                                          number: nat, index: nat, length: nat)
    requires Chained(hs) && parent in hs && epoch.length > 0 && InputOk(hs, parent, x)
    requires number < 0x100_0000 && index < 0x1_0000 && length < 0x1_0000
    requires x.since == 0x2000_0000_0000_0000 + length * 0x100_0000_0000 + index * 0x100_0000 + number
    ensures var (i, l) := if length == 0 then (0, 1) else (index, length);
            OutcomeOf(hs, parent, epoch, x) ==
              Met(epoch.number > number || (epoch.number == number && epoch.index * l >= i * epoch.length))
  {
    hide ShortOf;
    EpochFields(x.since, false, number, index, length);
    assert ExtractMetric(x.since) == Epoch(PositionOf(x.since % VALUE_LIMIT));
    hide PositionOf;
  }

  lemma {:induction false} EpochFields(since: nat, relative: bool, number: nat, index: nat, length: nat)
    requires number < 0x100_0000 && index < 0x1_0000 && length < 0x1_0000
    requires since == Side(relative) + 0x2000_0000_0000_0000 + length * 0x100_0000_0000 + index * 0x100_0000 + number
    ensures FlagsValid(since) && (IsAbsolute(since) <==> !relative) && MetricFlag(since) == 1 && since > 0
    ensures PositionOf(since % VALUE_LIMIT) ==
            if length == 0 then Position(number, 0, 1) else Position(number, index, length)
  {
    var value := length * 0x100_0000_0000 + index * 0x100_0000 + number;
    SinceFields(since, relative, 1, 0, value);
    PositionFields(number, index, length);
  }

  lemma {:induction false} PositionFields(number: nat, index: nat, length: nat)
    requires number < 0x100_0000 && index < 0x1_0000 && length < 0x1_0000
    ensures PositionOf(length * 0x100_0000_0000 + index * 0x100_0000 + number) ==
            if length == 0 then Position(number, 0, 1) else Position(number, index, length)
  {
    var value := length * 0x100_0000_0000 + index * 0x100_0000 + number;
    assert value % 0x100_0000 == number && value / 0x100_0000 == length * 0x1_0000 + index;
    assert value / 0x100_0000_0000 == length;
  }

  /** As numbers of epochs, a is at least b and c together; over the product of the lengths. */
  predicate Reaches(a: Position, b: Position, c: Position) {
    (a.number * a.length + a.index) * (b.length * c.length) >=
    ((b.number * b.length + b.index) * c.length + (c.number * c.length + c.index) * b.length) * a.length
  }

  lemma {:induction false} ReachesIs(a: Position, b: Position, c: Position)
    ensures Reaches(a, b, c) <==> !ShortOf(a, b, c)
  {
  }

  /** A relative epoch lock is met once the position reaches that of the cell and the given one together. */
  lemma {:induction false} RelativeEpochMeans(hs: map<Hash, Stamp>, parent: Hash, epoch: Position, x: SinceInput,
                                              number: nat, index: nat, length: nat)
    requires Chained(hs) && parent in hs && epoch.length > 0 && InputOk(hs, parent, x) && x.info.Some?
    requires number < 0x100_0000 && index < 0x1_0000 && length < 0x1_0000
    requires x.since ==
             0x8000_0000_0000_0000 + 0x2000_0000_0000_0000 + length * 0x100_0000_0000 + index * 0x100_0000 + number
    ensures var more := if length == 0 then Position(number, 0, 1) else Position(number, index, length);
            OutcomeOf(hs, parent, epoch, x) == Met(Reaches(epoch, x.info.value.epoch, more))
  {
    hide Reaches, ShortOf, OutcomeOf, InputOk;
    EpochFields(x.since, true, number, index, length);
    RelativeEpoch(hs, parent, epoch, x);
    ReachesIs(epoch, x.info.value.epoch, PositionOf(x.since % VALUE_LIMIT));
    hide PositionOf, FlagsValid, IsAbsolute;
  }

  lemma {:induction false} RelativeEpoch(hs: map<Hash, Stamp>, parent: Hash, epoch: Position, x: SinceInput)
    requires Chained(hs) && parent in hs && epoch.length > 0 && InputOk(hs, parent, x) && x.info.Some?
    requires FlagsValid(x.since) && !IsAbsolute(x.since) && MetricFlag(x.since) == 1 && x.since > 0
    ensures OutcomeOf(hs, parent, epoch, x) ==
            Met(!ShortOf(epoch, x.info.value.epoch, PositionOf(x.since % VALUE_LIMIT)))
  {
    hide PositionOf, ShortOf, FlagsValid, IsAbsolute;
  }

  /** With proper fractions, the order of positions is that of the numbers they stand for. */
  lemma {:induction false} OrderIsRational(a: Position, b: Position)
    requires a.index < a.length && b.index < b.length
    ensures Before(a, b) <==> (a.number * a.length + a.index) * b.length < (b.number * b.length + b.index) * a.length
  {
    var p, q := a.number * a.length + a.index, b.number * b.length + b.index;
    if a.number < b.number {
      SmallerWhole(a, b);
    } else if b.number < a.number {
      SmallerWhole(b, a);
    } else {
      Expand(a, b.length);
      Expand(b, a.length);
      Swap(a.number, a.length, b.length);
    }
  }

  lemma {:induction false} Expand(a: Position, k: nat)
    ensures (a.number * a.length + a.index) * k == a.number * a.length * k + a.index * k
  {
  }

  lemma {:induction false} SmallerWhole(a: Position, b: Position)
    requires a.index < a.length && b.index < b.length && a.number < b.number
    ensures (a.number * a.length + a.index) * b.length < (b.number * b.length + b.index) * a.length
  {
    MulMono(a.number + 1, b.number, a.length);
    Distribute(a.number, a.length);
    MulStrict(a.number * a.length + a.index, b.number * a.length, b.length);
    Swap(b.number, a.length, b.length);
    MulMono(b.number * b.length, b.number * b.length + b.index, a.length);
  }

  /** A time lock is met once the median time has reached the given time, or that much after the cell's block began. */
  lemma {:induction false} TimeLockMeans(hs: map<Hash, Stamp>, parent: Hash, epoch: Position, x: SinceInput,
                                         relative: bool, seconds: nat)
    requires Chained(hs) && parent in hs && epoch.length > 0 && InputOk(hs, parent, x)
    requires x.since == Side(relative) + 0x4000_0000_0000_0000 + seconds && seconds < 0x100_0000_0000_0000
    requires relative ==> x.info.Some?
    ensures var r, tip := OutcomeOf(hs, parent, epoch, x), MedianAt(Stamps(hs, parent), hs[parent].number);
            if seconds * 1000 >= U64_LIMIT || (relative && x.info.value.number == 0) then r == Stops
            else if !relative then r == Met(tip >= seconds * 1000)
            else
              var up := hs[x.block].parent;
              && up in hs
              && var begun := MedianAt(Stamps(hs, up), hs[up].number);
                 r == if begun + seconds * 1000 >= U64_LIMIT then Stops else Met(tip >= begun + seconds * 1000)
  {
    hide Before, ShortOf, PositionOf, MedianAt, Stamps, FlagsValid, IsAbsolute;
    SinceFields(x.since, relative, 2, 0, seconds);
    if relative && x.info.value.number > 0 { CellMedian(hs, parent, x.block); }
  }

  method CheckAbsolute(hs: map<Hash, Stamp>, parent: Hash, epoch: Position, since: nat) returns (r: Outcome)
    requires Chained(hs) && parent in hs && epoch.length > 0
    ensures r == VerifyAbsolute(PlaceOf(hs, parent, epoch), since)
  {
    hide Before, Chained, ExtractMetric, MedianAt, Stamps;
    match ExtractMetric(since)
    case BlockNumber(n) => return if hs[parent].number + 1 < n then Immature else Passed;
    case Epoch(e) => return if Before(epoch, e) then Immature else Passed;
    case Timestamp(t) =>
      if t >= U64_LIMIT { return Stops; }
      var tip := BlockMedianTime(hs, parent);
      return if tip < t then Immature else Passed;
    case Invalid => return InvalidSince;
  }

  method CheckRelative(hs: map<Hash, Stamp>, parent: Hash, epoch: Position, x: SinceInput) returns (r: Outcome)
    requires Chained(hs) && parent in hs && epoch.length > 0 && InputOk(hs, parent, x)
    ensures r == VerifyRelative(PlaceOf(hs, parent, epoch), x.since, x.info)
  {
    hide ShortOf, Chained, ExtractMetric, MedianAt, Stamps;
    if x.info.None? { return Immature; }
    match ExtractMetric(x.since)
    case BlockNumber(n) => return if hs[parent].number + 1 < x.info.value.number + n then Immature else Passed;
    case Epoch(e) => return if ShortOf(epoch, x.info.value.epoch, e) then Immature else Passed;
    case Timestamp(t) =>
      if t >= U64_LIMIT || x.info.value.number == 0 { return Stops; }
      CellMedian(hs, parent, x.block);
      var base := BlockMedianTime(hs, hs[x.block].parent);
      var tip := BlockMedianTime(hs, parent);
      if base + t >= U64_LIMIT { return Stops; }
      return if tip < base + t then Immature else Passed;
    case Invalid => return InvalidSince;
  }

  method CheckInput(hs: map<Hash, Stamp>, parent: Hash, epoch: Position, x: SinceInput) returns (r: Outcome)
    requires Chained(hs) && parent in hs && epoch.length > 0 && InputOk(hs, parent, x)
    ensures r == OutcomeOf(hs, parent, epoch, x)
  {
    hide VerifyAbsolute, VerifyRelative, Chained, FlagsValid, IsAbsolute;
    if x.since == 0 { return Passed; }
    if !FlagsValid(x.since) { return InvalidSince; }
    if IsAbsolute(x.since) {
      r := CheckAbsolute(hs, parent, epoch, x.since);
    } else {
      r := CheckRelative(hs, parent, epoch, x);
    }
  }

  /** All inputs pass, or the first that does not decides. */
  method VerifySinces(hs: map<Hash, Stamp>, parent: Hash, epoch: Position,
                      inputs: seq<SinceInput>) returns (r: Outcome, at: nat)
    requires Chained(hs) && parent in hs && epoch.length > 0
    requires forall i :: 0 <= i < |inputs| ==> InputOk(hs, parent, inputs[i])
    ensures forall i :: 0 <= i < at <= |inputs| ==> OutcomeOf(hs, parent, epoch, inputs[i]) == Passed
    ensures at <= |inputs| && (r == Passed <==> at == |inputs|)
    ensures at < |inputs| ==> r == OutcomeOf(hs, parent, epoch, inputs[at])
  {
    hide OutcomeOf, Chained, InputOk;
    for i := 0 to |inputs|
      invariant forall j :: 0 <= j < i ==> OutcomeOf(hs, parent, epoch, inputs[j]) == Passed
    {
      var outcome := CheckInput(hs, parent, epoch, inputs[i]);
      if outcome != Passed { return outcome, i; }
    }
    return Passed, |inputs|;
  }
}
