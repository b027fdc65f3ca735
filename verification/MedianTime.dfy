/**
  Median time: the upper median of the last timestamps. A chain whose blocks are all younger
  than their parent's median time has a median that never goes back.
 */
module MedianTime {
  import opened Types
  import opened Arithmetic

  const MEDIAN_TIME_BLOCK_COUNT: nat := 37

  // ---------------------------------------------------------------- order statistics

  function CountBelow(s: seq<nat>, x: nat): (c: nat)
    ensures c <= |s|
  {
    if s == [] then 0 else (if s[0] < x then 1 else 0) + CountBelow(s[1..], x)
  }

  /** The upper median: at most half of the values lie below it, more than half do not lie above. */
  predicate IsMedian(s: seq<nat>, m: nat) {
    CountBelow(s, m) <= |s| / 2 < CountBelow(s, m + 1)
  }

  lemma {:induction false} CountMono(s: seq<nat>, x: nat, y: nat)
    requires x <= y
    ensures CountBelow(s, x) <= CountBelow(s, y)
  {
    if s != [] { CountMono(s[1..], x, y); }
  }

  lemma {:induction false} CountAppend(s: seq<nat>, t: seq<nat>, x: nat)
    ensures CountBelow(s + t, x) == CountBelow(s, x) + CountBelow(t, x)
  {
    if s == [] {
      assert s + t == t;
    } else {
      CountAppend(s[1..], t, x);
      assert (s + t)[1..] == s[1..] + t;
    }
  }

  lemma {:induction false} MedianUnique(s: seq<nat>, m: nat, n: nat)
    requires IsMedian(s, m) && IsMedian(s, n)
    ensures m == n
  {
    if m < n { CountMono(s, m + 1, n); }
    if n < m { CountMono(s, n + 1, m); }
  }

  // ---------------------------------------------------------------- sorting

  predicate Sorted(s: seq<nat>) {
    forall i, j :: 0 <= i < j < |s| ==> s[i] <= s[j]
  }

  function Insert(s: seq<nat>, x: nat): seq<nat> {
    if s == [] || x <= s[0] then [x] + s else [s[0]] + Insert(s[1..], x)
  }

  lemma {:induction false} InsertElems(s: seq<nat>, x: nat)
    ensures multiset(Insert(s, x)) == multiset(s) + multiset{x}
  {
    if s == [] || x <= s[0] {
    } else {
      InsertElems(s[1..], x);
      assert s == [s[0]] + s[1..];
    }
  }

  lemma {:induction false} InsertSorted(s: seq<nat>, x: nat)
    requires Sorted(s)
    ensures Sorted(Insert(s, x)) && |Insert(s, x)| == |s| + 1
    ensures Insert(s, x)[0] == if s == [] || x <= s[0] then x else s[0]
  {
    if s != [] && x > s[0] { InsertSorted(s[1..], x); }
  }

  lemma {:induction false} InsertCounts(s: seq<nat>, x: nat, y: nat)
    ensures CountBelow(Insert(s, x), y) == CountBelow(s, y) + if x < y then 1 else 0
  {
    if s == [] || x <= s[0] {
      assert ([x] + s)[1..] == s;
    } else {
      InsertCounts(s[1..], x, y);
      assert Insert(s, x)[1..] == Insert(s[1..], x);
    }
  }

  method Sort(s: seq<nat>) returns (r: seq<nat>)
    ensures Sorted(r) && multiset(r) == multiset(s) && |r| == |s|
    ensures forall y :: CountBelow(r, y) == CountBelow(s, y)
  {
    r := [];
    for i := 0 to |s|
      invariant Sorted(r) && multiset(r) == multiset(s[..i]) && |r| == i
      invariant forall y :: CountBelow(r, y) == CountBelow(s[..i], y)
    {
      forall y ensures CountBelow(Insert(r, s[i]), y) == CountBelow(s[..i + 1], y) {
        InsertCounts(r, s[i], y);
        CountAppend(s[..i], [s[i]], y);
        assert s[..i + 1] == s[..i] + [s[i]];
      }
      InsertElems(r, s[i]);
      InsertSorted(r, s[i]);
      assert s[..i + 1] == s[..i] + [s[i]];
      r := Insert(r, s[i]);
    }
    assert s[..|s|] == s;
  }

  lemma {:induction false} SortedCounts(s: seq<nat>, k: nat, x: nat)
    requires Sorted(s) && k <= |s|
    ensures (k < |s| ==> s[k] >= x) ==> CountBelow(s, x) <= k
    ensures (k > 0 ==> s[k - 1] < x) ==> CountBelow(s, x) >= k
  {
    if s != [] {
      if k > 0 { SortedCounts(s[1..], k - 1, x); } else { SortedCounts(s[1..], 0, x); }
    }
  }

  /** The middle of the sorted values, the later one if there are two, is the upper median. */
  lemma {:induction false} MiddleIsMedian(s: seq<nat>)
    requires Sorted(s) && s != []
    ensures IsMedian(s, s[|s| / 2])
  {
    var k := |s| / 2;
    SortedCounts(s, k, s[k]);
    SortedCounts(s, k + 1, s[k] + 1);
  }

  // ---------------------------------------------------------------- the median of a chain

  /** The timestamps that count for the block at height n. */
  function Window(ts: seq<nat>, n: nat): seq<nat>
    requires n < |ts|
  {
    ts[n + 1 - Min(n + 1, MEDIAN_TIME_BLOCK_COUNT)..n + 1]
  }

  lemma {:induction false} HasMedian(s: seq<nat>)
    requires s != []
    ensures exists m :: IsMedian(s, m)
  {
    var r := SortOf(s);
    MiddleIsMedian(r);
    var m := r[|r| / 2];
    assert CountBelow(r, m) == CountBelow(s, m) && CountBelow(r, m + 1) == CountBelow(s, m + 1);
    assert IsMedian(s, m);
  }

  lemma {:induction false} SortOf(s: seq<nat>) returns (r: seq<nat>)
    ensures Sorted(r) && |r| == |s| && multiset(r) == multiset(s) && forall y :: CountBelow(r, y) == CountBelow(s, y)
  {
    if s == [] {
      r := [];
    } else {
      var t := SortOf(s[1..]);
      InsertSorted(t, s[0]);
      InsertElems(t, s[0]);
      assert s == [s[0]] + s[1..];
      forall y ensures CountBelow(Insert(t, s[0]), y) == CountBelow(s, y) { InsertCounts(t, s[0], y); }
      r := Insert(t, s[0]);
    }
  }

  ghost function MedianAt(ts: seq<nat>, n: nat): (m: nat)
    requires n < |ts|
    ensures IsMedian(Window(ts, n), m)
  {
    HasMedian(Window(ts, n));
    var m :| IsMedian(Window(ts, n), m);
    m
  }

  /** The middle of the sorted values, the later one if there are two. */
  ghost predicate MiddleOf(s: seq<nat>, m: nat) {
    exists r: seq<nat> :: Sorted(r) && multiset(r) == multiset(s) && |r| == |s| > 0 && m == r[|r| / 2]
  }

  /** What the median time at a height is: the middle of the last 37 timestamps, or of all of them. */
  lemma {:induction false} MedianMeans(ts: seq<nat>, n: nat)
    requires n < |ts|
    ensures MiddleOf(ts[if n < 36 then 0 else n - 36..n + 1], MedianAt(ts, n))
  {
    var w := Window(ts, n);
    assert w == ts[if n < 36 then 0 else n - 36..n + 1];
    var r := SortOf(w);
    MiddleIsMedian(r);
    var m := r[|r| / 2];
    assert CountBelow(r, m) == CountBelow(w, m) && CountBelow(r, m + 1) == CountBelow(w, m + 1);
    MedianUnique(w, m, MedianAt(ts, n));
  }

  /** Every block after genesis is younger than the median time at its parent. */
  ghost predicate TimesOk(ts: seq<nat>) {
    forall i {:trigger MedianAt(ts, i)} :: 0 <= i < |ts| - 1 ==> ts[i + 1] > MedianAt(ts, i)
  }

  /** One window further: no value below the old median comes in, and the middle does not move down. */
  lemma {:induction false} WindowStep(w: seq<nat>, v: seq<nat>, x: nat, m: nat, m': nat)
    requires IsMedian(w, m) && IsMedian(v, m') && x > m && w != []
    requires v == w + [x] || v == w[1..] + [x]
    ensures m <= m'
  {
    if m' < m {
      CountMono(v, m' + 1, m);
      CountAppend(w, [x], m);
      CountAppend(w[1..], [x], m);
    }
  }

  lemma {:induction false} MedianStep(ts: seq<nat>, n: nat)
    requires TimesOk(ts) && n + 1 < |ts|
    ensures MedianAt(ts, n) <= MedianAt(ts, n + 1)
  {
    var w, v := Window(ts, n), Window(ts, n + 1);
    if n + 2 <= MEDIAN_TIME_BLOCK_COUNT {
      assert v == w + [ts[n + 1]];
    } else {
      assert v == w[1..] + [ts[n + 1]];
    }
    WindowStep(w, v, ts[n + 1], MedianAt(ts, n), MedianAt(ts, n + 1));
  }

  /** The median time never decreases along a chain. */
  lemma {:induction false} MedianMonotone(ts: seq<nat>, m: nat, n: nat)
    requires TimesOk(ts) && m <= n < |ts|
    ensures MedianAt(ts, m) <= MedianAt(ts, n)
  {
    if m < n {
      MedianMonotone(ts, m, n - 1);
      MedianStep(ts, n - 1);
    }
  }

  /** The median at a height depends on nothing above it. */
  lemma {:induction false} MedianPrefix(ts: seq<nat>, us: seq<nat>, n: nat)
    requires n < |ts| && ts <= us
    ensures MedianAt(us, n) == MedianAt(ts, n)
  {
    assert Window(ts, n) == Window(us, n);
    MedianUnique(Window(ts, n), MedianAt(ts, n), MedianAt(us, n));
  }

  // ---------------------------------------------------------------- computing it over headers

  datatype Stamp = Stamp(timestamp: nat, number: nat, parent: Hash)

  predicate Chained(hs: map<Hash, Stamp>) {
    forall h {:trigger Below(hs, h)} :: h in hs && hs[h].number > 0 ==> Below(hs, h)
  }

  predicate Below(hs: map<Hash, Stamp>, h: Hash)
    requires h in hs
  {
    hs[h].parent in hs && hs[hs[h].parent].number + 1 == hs[h].number
  }

  /** The timestamps from genesis to a block. */
  function Stamps(hs: map<Hash, Stamp>, h: Hash): (ts: seq<nat>)
    requires Chained(hs) && h in hs
    ensures |ts| == hs[h].number + 1
    decreases hs[h].number
  {
    if hs[h].number == 0 then [hs[h].timestamp] else
    assert Below(hs, h);
    Stamps(hs, hs[h].parent) + [hs[h].timestamp]
  }

  method BlockMedianTime(hs: map<Hash, Stamp>, h: Hash) returns (m: nat)
    requires Chained(hs) && h in hs
    ensures m == MedianAt(Stamps(hs, h), hs[h].number)
  {
    ghost var ts, n := Stamps(hs, h), hs[h].number;
    var stamps: seq<nat> := [];
    var hash := h;
    var i := 0;
    while i < MEDIAN_TIME_BLOCK_COUNT
      invariant 0 <= i <= MEDIAN_TIME_BLOCK_COUNT && i <= n && |stamps| == i
      invariant hash in hs && hs[hash].number == n - i && Stamps(hs, hash) == ts[..n - i + 1]
      invariant forall y :: CountBelow(stamps, y) == CountBelow(ts[n - i + 1..n + 1], y)
      decreases MEDIAN_TIME_BLOCK_COUNT - i
    {
      var s := hs[hash];
      assert hs[hash].number > 0 ==> Below(hs, hash);
      StampAt(hs, hash);
      assert s.timestamp == ts[n - i];
      forall y ensures CountBelow(stamps + [s.timestamp], y) == CountBelow(ts[n - i..n + 1], y) {
        CountAppend(stamps, [s.timestamp], y);
        CountAppend([s.timestamp], ts[n - i + 1..n + 1], y);
        assert ts[n - i..n + 1] == [s.timestamp] + ts[n - i + 1..n + 1];
      }
      stamps := stamps + [s.timestamp];
      if s.number == 0 { break; }
      hash := s.parent;
      i := i + 1;
    }
    assert |stamps| == Min(n + 1, MEDIAN_TIME_BLOCK_COUNT);
    var sorted := Sort(stamps);
    m := sorted[|sorted| / 2];
    MiddleIsMedian(sorted);
    assert IsMedian(Window(ts, n), m);
    MedianUnique(Window(ts, n), m, MedianAt(ts, n));
  }

  lemma {:induction false} StampAt(hs: map<Hash, Stamp>, h: Hash)
    requires Chained(hs) && h in hs
    ensures var ts := Stamps(hs, h);
            && ts[hs[h].number] == hs[h].timestamp
            && (hs[h].number > 0 ==> hs[h].parent in hs && Stamps(hs, hs[h].parent) == ts[..hs[h].number])
  {
    assert hs[h].number > 0 ==> Below(hs, h);
  }

  // ---------------------------------------------------------------- the timestamp rule

  const ALLOWED_FUTURE_BLOCKTIME: nat := 15_000

  datatype TimestampCheck = TimeOk | TooOld(min: nat) | TooNew(max: nat)

  /** `TimestampVerifier` for a header on top of the block `parent`, at the local time `now`. */
  method VerifyTimestamp(hs: map<Hash, Stamp>, parent: Hash, timestamp: nat, now: nat) returns (r: TimestampCheck)
    requires Chained(hs) && parent in hs
    ensures var min := MedianAt(Stamps(hs, parent), hs[parent].number);
            r == if timestamp <= min then TooOld(min)
                 else if timestamp > now + 15_000 then TooNew(now + 15_000)
                 else TimeOk
  {
    var min := BlockMedianTime(hs, parent);
    if timestamp <= min { return TooOld(min); }
    var max := now + ALLOWED_FUTURE_BLOCKTIME;
    if timestamp > max { return TooNew(max); }
    return TimeOk;
  }

  /** A chain stays in order exactly as long as each new block passes the lower bound. */
  lemma {:induction false} TimesExtend(ts: seq<nat>, t: nat)
    requires ts != []
    ensures TimesOk(ts + [t]) <==> TimesOk(ts) && t > MedianAt(ts, |ts| - 1)
  {
    var us := ts + [t];
    forall i | 0 <= i < |ts| ensures MedianAt(us, i) == MedianAt(ts, i) { MedianPrefix(ts, us, i); }
    if TimesOk(us) {
      forall i | 0 <= i < |ts| - 1 ensures ts[i + 1] > MedianAt(ts, i) { assert us[i + 1] > MedianAt(us, i); }
      assert us[|ts| - 1 + 1] > MedianAt(us, |ts| - 1);
    }
    if TimesOk(ts) && t > MedianAt(ts, |ts| - 1) {
      forall i | 0 <= i < |us| - 1 ensures us[i + 1] > MedianAt(us, i) {
        if i < |ts| - 1 { assert ts[i + 1] > MedianAt(ts, i); }
      }
    }
  }
}
