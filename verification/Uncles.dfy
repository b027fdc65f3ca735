/**
  Uncle inclusion: the loop that checks the uncles of one block against the columns of its
  parent chain, and what these checks add up to over a whole chain.
 */
module Uncles {
  import opened Types
  import opened Store
  import opened MainChain

  const MAX_UNCLES_NUM: nat := 2

  datatype UnclesError =
    | OverCount | InvalidTarget | InvalidDifficultyEpoch | InvalidNumber
    | DescendantLimit | Duplicate | DoubleInclusion | Malformed

  /** `double_inclusion`: already a main-chain block, or already embedded. */
  predicate DoubleIncluded(c: Columns, h: Hash) {
    h in c.numberOf || h in c.uncles
  }

  /** `descendant`: the parent is on the main chain, or was itself embedded, one height below. */
  predicate Descends(c: Columns, u: Uncle) {
    if u.parent in c.numberOf then u.parent in c.blocks && c.blocks[u.parent].number + 1 == u.number
    else u.parent in c.uncles && c.uncles[u.parent].number + 1 == u.number
  }

  predicate EmbeddedBefore(b: Block, i: nat, u: Uncle)
    requires i <= |b.uncles|
  {
    exists j :: 0 <= j < i && b.uncles[j].hash == u.parent && b.uncles[j].number + 1 == u.number
  }

  /** Uncle i of the block is acceptable; `wellFormed` stands for its proposals and its proof of work. */
  predicate UncleOk(c: Columns, b: Block, wellFormed: Uncle -> bool, i: nat)
    requires i < |b.uncles|
  {
    var u := b.uncles[i];
    && u.target == b.target
    && u.epoch == b.epoch
    && u.number < b.number
    && (EmbeddedBefore(b, i, u) || Descends(c, u))
    && (forall j :: 0 <= j < i ==> b.uncles[j].hash != u.hash)
    && !DoubleIncluded(c, u.hash)
    && wellFormed(u)
  }

  predicate UnclesPass(c: Columns, b: Block, wellFormed: Uncle -> bool) {
    && |b.uncles| <= MAX_UNCLES_NUM
    && (b.number == 0 ==> b.uncles == [])
    && forall i :: 0 <= i < |b.uncles| ==> UncleOk(c, b, wellFormed, i)
  }

  /** What an error says about uncle i. */
  predicate Blames(e: UnclesError, c: Columns, b: Block, wellFormed: Uncle -> bool, i: nat)
    requires i < |b.uncles|
  {
    var u := b.uncles[i];
    match e
    case OverCount => false
    case InvalidTarget => u.target != b.target
    case InvalidDifficultyEpoch => u.epoch != b.epoch
    case InvalidNumber => u.number >= b.number
    case DescendantLimit => !EmbeddedBefore(b, i, u) && !Descends(c, u)
    case Duplicate => exists j :: 0 <= j < i && b.uncles[j].hash == u.hash
    case DoubleInclusion => DoubleIncluded(c, u.hash)
    case Malformed => !wellFormed(u)
  }

  /** Uncle i is the first bad one, and the error names a rule it breaks. */
  predicate FirstBad(e: UnclesError, c: Columns, b: Block, wellFormed: Uncle -> bool, i: nat)
    requires i < |b.uncles|
  {
    Blames(e, c, b, wellFormed, i) && forall j :: 0 <= j < i ==> UncleOk(c, b, wellFormed, j)
  }

  /** `UnclesVerifier::verify`; the epoch rules are those the block's own header was checked against. */
  method VerifyUncles(c: Columns, b: Block, wellFormed: Uncle -> bool) returns (r: Option<UnclesError>)
    ensures r == None <==> UnclesPass(c, b, wellFormed)
    ensures r == Some(OverCount) <==> |b.uncles| > MAX_UNCLES_NUM || (b.number == 0 && b.uncles != [])
    ensures r.Some? && r != Some(OverCount) ==>
              exists i :: 0 <= i < |b.uncles| && FirstBad(r.value, c, b, wellFormed, i)
  {
    if |b.uncles| == 0 { return None; }
    if b.number == 0 { return Some(OverCount); }
    if |b.uncles| > MAX_UNCLES_NUM { return Some(OverCount); }
    var included: map<Hash, nat> := map[];
    for i := 0 to |b.uncles|
      invariant forall j :: 0 <= j < i ==> UncleOk(c, b, wellFormed, j)
      invariant forall j :: 0 <= j < i ==>
                  b.uncles[j].hash in included && included[b.uncles[j].hash] == b.uncles[j].number
      invariant forall h :: h in included ==> exists j :: 0 <= j < i && b.uncles[j].hash == h
    {
      var u := b.uncles[i];
      if u.target != b.target {
        assert FirstBad(InvalidTarget, c, b, wellFormed, i) && !UncleOk(c, b, wellFormed, i);
        return Some(InvalidTarget);
      }
      if u.epoch != b.epoch {
        assert FirstBad(InvalidDifficultyEpoch, c, b, wellFormed, i) && !UncleOk(c, b, wellFormed, i);
        return Some(InvalidDifficultyEpoch);
      }
      if u.number >= b.number {
        assert FirstBad(InvalidNumber, c, b, wellFormed, i) && !UncleOk(c, b, wellFormed, i);
        return Some(InvalidNumber);
      }
      var embedded := u.parent in included && included[u.parent] + 1 == u.number;
      assert embedded == EmbeddedBefore(b, i, u);
      if !(embedded || Descends(c, u)) {
        assert FirstBad(DescendantLimit, c, b, wellFormed, i) && !UncleOk(c, b, wellFormed, i);
        return Some(DescendantLimit);
      }
      if u.hash in included {
        assert FirstBad(Duplicate, c, b, wellFormed, i) && !UncleOk(c, b, wellFormed, i);
        return Some(Duplicate);
      }
      if DoubleIncluded(c, u.hash) {
        assert FirstBad(DoubleInclusion, c, b, wellFormed, i) && !UncleOk(c, b, wellFormed, i);
        return Some(DoubleInclusion);
      }
      if !wellFormed(u) {
        assert FirstBad(Malformed, c, b, wellFormed, i) && !UncleOk(c, b, wellFormed, i);
        return Some(Malformed);
      }
      included := included[u.hash := u.number];
    }
    return None;
  }

  // ---------------------------------------------------------------- over a chain

  /** Each block's uncles passed against the columns of the chain below it. */
  ghost predicate UnclesValid(p: seq<Block>, wellFormed: Uncle -> bool) {
    && Numbered(p)
    && (p != [] ==> p[0].uncles == [])
    && forall i :: 0 < i < |p| ==> PassedBelow(p[..i], p[i], wellFormed)
  }

  ghost predicate PassedBelow(q: seq<Block>, b: Block, wellFormed: Uncle -> bool) {
    exists c: Columns :: Agrees(c, q) && UnclesPass(c, b, wellFormed)
  }

  lemma {:induction false} AgreesIndex(c: Columns, q: seq<Block>)
    requires Agrees(c, q)
    ensures c.numberOf == NumberIndex(q) && c.uncles == UncleMap(q) && Stored(c.blocks, q) && Numbered(q)
  {
  }

  lemma {:induction false} PassImpliesNew(c: Columns, q: seq<Block>, b: Block, wellFormed: Uncle -> bool)
    requires Agrees(c, q) && UnclesPass(c, b, wellFormed)
    ensures UnclesNew(UncleMap(q), b)
  {
    forall i | 0 <= i < |b.uncles|
      ensures b.uncles[i].hash !in UncleMap(q)
      ensures forall j :: 0 <= j < i ==> b.uncles[j].hash != b.uncles[i].hash
    {
      assert UncleOk(c, b, wellFormed, i);
    }
  }

  /** An uncle and a block with the same hash are the same header, so they have the same height. */
  ghost predicate HeadersInjective(p: seq<Block>) {
    forall i, k, j :: 0 <= i < |p| && 0 <= k < |p[i].uncles| && 0 <= j < |p| && p[i].uncles[k].hash == p[j].hash
      ==> p[i].uncles[k].number == p[j].number
  }

  /** No embedded uncle is a main-chain block, neither below the block that embeds it nor above. */
  lemma {:induction false} NeverMainChain(p: seq<Block>, wellFormed: Uncle -> bool, i: nat, k: nat, j: nat)
    requires UnclesValid(p, wellFormed) && HeadersInjective(p)
    requires i < |p| && k < |p[i].uncles| && j < |p|
    ensures p[i].uncles[k].hash != p[j].hash
  {
    assert PassedBelow(p[..i], p[i], wellFormed);
    var c :| Agrees(c, p[..i]) && UnclesPass(c, p[i], wellFormed);
    assert UncleOk(c, p[i], wellFormed, k);
    if j < i {
      assert p[..i][j] == p[j];
      NumberIndexKeys(p[..i], p[j].hash);
    }
  }

  // ---------------------------------------------------------------- ancestry of uncles

  predicate OnMain(p: seq<Block>, h: Hash, number: nat) {
    number < |p| && p[number].hash == h
  }

  /** Following parents from the uncle stays within embedded uncles until it meets the main chain. */
  predicate Rooted(p: seq<Block>, u: Uncle)
    decreases u.number
  {
    u.number > 0 &&
    (OnMain(p, u.parent, u.number - 1) ||
     (u.parent in UncleMap(p) && UncleMap(p)[u.parent].number + 1 == u.number && Rooted(p, UncleMap(p)[u.parent])))
  }

  lemma {:induction false} UncleMapStep(q: seq<Block>, b: Block)
    requires UnclesNew(UncleMap(q), b)
    ensures UncleMap(q + [b]).Keys == UncleMap(q).Keys + UncleHashes(b)
    ensures forall h :: h in UncleMap(q) ==> UncleMap(q + [b])[h] == UncleMap(q)[h]
    ensures forall i :: 0 <= i < |b.uncles| ==> UncleMap(q + [b])[b.uncles[i].hash] == b.uncles[i]
  {
    assert (q + [b])[..|q + [b]| - 1] == q;
    PutUnclesKeys(UncleMap(q), b.uncles);
    forall i | 0 <= i < |b.uncles| ensures PutUncles(UncleMap(q), b.uncles)[b.uncles[i].hash] == b.uncles[i] {
      PutUnclesAt(UncleMap(q), b.uncles, i);
    }
  }

  lemma {:induction false} PutUnclesAt(m: map<Hash, Uncle>, us: seq<Uncle>, i: nat)
    requires i < |us| && forall a, b :: 0 <= a < b < |us| ==> us[a].hash != us[b].hash
    ensures us[i].hash in PutUncles(m, us) && PutUncles(m, us)[us[i].hash] == us[i]
  {
    if i < |us| - 1 { PutUnclesAt(m, us[..|us| - 1], i); }
  }

  lemma {:induction false} RootedGrows(q: seq<Block>, b: Block, u: Uncle)
    requires UnclesNew(UncleMap(q), b) && Rooted(q, u)
    ensures Rooted(q + [b], u)
    decreases u.number
  {
    UncleMapStep(q, b);
    if !OnMain(q, u.parent, u.number - 1) {
      RootedGrows(q, b, UncleMap(q)[u.parent]);
    } else {
      assert (q + [b])[u.number - 1] == q[u.number - 1];
    }
  }

  lemma {:induction false} RootedNew(c: Columns, q: seq<Block>, b: Block, wellFormed: Uncle -> bool, k: nat)
    requires Agrees(c, q) && UnclesPass(c, b, wellFormed) && k < |b.uncles|
    requires forall h :: h in UncleMap(q) ==> Rooted(q, UncleMap(q)[h])
    ensures Rooted(q + [b], b.uncles[k])
  {
    hide Agrees, UncleMap;
    var u := b.uncles[k];
    assert UncleOk(c, b, wellFormed, k);
    AgreesIndex(c, q);
    PassImpliesNew(c, q, b, wellFormed);
    UncleMapStep(q, b);
    if EmbeddedBefore(b, k, u) {
      var j :| 0 <= j < k && b.uncles[j].hash == u.parent && b.uncles[j].number + 1 == u.number;
      RootedNew(c, q, b, wellFormed, j);
      assert u.parent in UncleHashes(b);
    } else if u.parent in c.numberOf {
      NumberIndexKeys(q, u.parent);
      assert Stored(c.blocks, q);
      var i :| 0 <= i < |q| && q[i].hash == u.parent;
      assert (q + [b])[i] == q[i];
    } else {
      RootedGrows(q, b, UncleMap(q)[u.parent]);
    }
  }

  lemma {:induction false} PrefixValid(p: seq<Block>, wellFormed: Uncle -> bool)
    requires UnclesValid(p, wellFormed) && p != []
    ensures UnclesValid(p[..|p| - 1], wellFormed)
  {
    hide PassedBelow;
    var q := p[..|p| - 1];
    forall i | 0 < i < |q| ensures PassedBelow(q[..i], q[i], wellFormed) {
      assert q[..i] == p[..i];
      assert PassedBelow(p[..i], p[i], wellFormed);
    }
  }

  /** Every uncle ever embedded descends from the main chain through embedded uncles. */
  lemma {:induction false} AllRooted(p: seq<Block>, wellFormed: Uncle -> bool)
    requires UnclesValid(p, wellFormed)
    ensures forall h :: h in UncleMap(p) ==> Rooted(p, UncleMap(p)[h])
  {
    if |p| > 1 {
      var q, b := p[..|p| - 1], p[|p| - 1];
      assert p == q + [b];
      PrefixValid(p, wellFormed);
      AllRooted(q, wellFormed);
      assert PassedBelow(p[..|p| - 1], p[|p| - 1], wellFormed);
      var c :| Agrees(c, q) && UnclesPass(c, b, wellFormed);
      PassImpliesNew(c, q, b, wellFormed);
      UncleMapStep(q, b);
      forall h | h in UncleMap(p) ensures Rooted(p, UncleMap(p)[h]) {
        if h in UncleMap(q) {
          RootedGrows(q, b, UncleMap(q)[h]);
        } else {
          var k :| 0 <= k < |b.uncles| && b.uncles[k].hash == h;
          RootedNew(c, q, b, wellFormed, k);
        }
      }
    } else if |p| == 1 {
      assert UncleMap(p[..0]) == map[];
      assert UncleMap(p) == map[];
    }
  }

  // ---------------------------------------------------------------- counting uncles

  function TotalUncles(p: seq<Block>): nat {
    if p == [] then 0 else TotalUncles(p[..|p| - 1]) + |p[|p| - 1].uncles|
  }

  lemma {:induction false} AddKey<K, V>(m: map<K, V>, k: K, v: V)
    requires k !in m
    ensures |m[k := v]| == |m| + 1
  {
    assert m[k := v].Keys == m.Keys + {k};
  }

  lemma {:induction false} PutUnclesCount(m: map<Hash, Uncle>, us: seq<Uncle>)
    requires forall i :: 0 <= i < |us| ==> us[i].hash !in m
    requires forall i, j :: 0 <= i < j < |us| ==> us[i].hash != us[j].hash
    ensures |PutUncles(m, us)| == |m| + |us|
  {
    if us != [] {
      var vs := us[..|us| - 1];
      PutUnclesCount(m, vs);
      PutUnclesKeys(m, vs);
      AddKey(PutUncles(m, vs), us[|us| - 1].hash, us[|us| - 1]);
    }
  }

  /** Block i of the chain embeds an uncle with this hash. */
  predicate Embeds(p: seq<Block>, i: nat, h: Hash)
    requires i < |p|
  {
    exists k :: 0 <= k < |p[i].uncles| && p[i].uncles[k].hash == h
  }

  lemma {:induction false} UncleKeys(p: seq<Block>, h: Hash)
    ensures h in UncleMap(p) <==> exists i :: 0 <= i < |p| && Embeds(p, i, h)
  {
    if p != [] {
      var q, n := p[..|p| - 1], |p| - 1;
      UncleKeys(q, h);
      PutUnclesKeys(UncleMap(q), p[n].uncles);
      assert h in UncleMap(p) <==> h in UncleMap(q) || Embeds(p, n, h);
      forall i | 0 <= i < n ensures Embeds(q, i, h) <==> Embeds(p, i, h) {
        assert q[i] == p[i];
      }
    }
  }

  /** The uncles column is the disjoint union of the blocks' uncles. */
  lemma {:induction false} UncleCount(p: seq<Block>)
    requires UnclesOk(p)
    ensures |UncleMap(p)| == TotalUncles(p)
    ensures forall h :: h in UncleMap(p) <==> exists i :: 0 <= i < |p| && Embeds(p, i, h)
  {
    forall h ensures h in UncleMap(p) <==> exists i :: 0 <= i < |p| && Embeds(p, i, h) { UncleKeys(p, h); }
    CountUncles(p);
  }

  lemma {:induction false} CountUncles(p: seq<Block>)
    requires UnclesOk(p)
    ensures |UncleMap(p)| == TotalUncles(p)
  {
    if p != [] {
      CountUncles(p[..|p| - 1]);
      PutUnclesCount(UncleMap(p[..|p| - 1]), p[|p| - 1].uncles);
    }
  }

  /** The running totals of two blocks differ by the uncles embedded strictly after the first one. */
  lemma {:induction false} TotalsTelescope(p: seq<Block>, i: nat, j: nat)
    requires i <= j <= |p|
    ensures TotalUncles(p[..j]) == TotalUncles(p[..i]) + TotalUncles(p[i..j])
  {
    if i < j {
      TotalsTelescope(p, i, j - 1);
      assert p[..j][..|p[..j]| - 1] == p[..j - 1];
      assert p[i..j][..|p[i..j]| - 1] == p[i..j - 1];
    } else {
      assert p[i..j] == [];
    }
  }

  // ---------------------------------------------------------------- the checks in terms of the chain

  ghost predicate OnChain(q: seq<Block>, h: Hash) {
    exists i :: 0 <= i < |q| && q[i].hash == h
  }

  ghost predicate UncleWith(q: seq<Block>, h: Hash, number: nat) {
    exists i, l :: 0 <= i < |q| && 0 <= l < |q[i].uncles| && q[i].uncles[l].hash == h && q[i].uncles[l].number == number
  }

  /**
    Uncle k of a block on top of the chain q: of the same epoch and target, lower than the block,
    new, and the child of a block of the chain, or of an uncle that the chain or this block embeds.
   */
  ghost predicate UncleFits(q: seq<Block>, b: Block, wellFormed: Uncle -> bool, k: nat)
    requires k < |b.uncles|
  {
    var u := b.uncles[k];
    && u.target == b.target && u.epoch == b.epoch && u.number < b.number && wellFormed(u)
    && !OnChain(q, u.hash) && (forall n: nat :: !UncleWith(q, u.hash, n))
    && (forall l :: 0 <= l < k ==> b.uncles[l].hash != u.hash)
    && u.number > 0
    && (|| (exists l :: 0 <= l < k && b.uncles[l].hash == u.parent && b.uncles[l].number == u.number - 1)
        || (u.number <= |q| && q[u.number - 1].hash == u.parent)
        || (!OnChain(q, u.parent) && UncleWith(q, u.parent, u.number - 1)))
  }

  lemma {:induction false} UncleAt(q: seq<Block>, i: nat, l: nat)
    requires UnclesOk(q) && i < |q| && l < |q[i].uncles|
    ensures q[i].uncles[l].hash in UncleMap(q) && UncleMap(q)[q[i].uncles[l].hash] == q[i].uncles[l]
  {
    var r, b := q[..|q| - 1], q[|q| - 1];
    assert q == r + [b];
    UncleMapStep(r, b);
    if i < |r| { UncleAt(r, i, l); }
  }

  lemma {:induction false} UncleMapMeans(q: seq<Block>, h: Hash, n: nat)
    requires UnclesOk(q)
    ensures UncleWith(q, h, n) <==> h in UncleMap(q) && UncleMap(q)[h].number == n
  {
    UncleKeys(q, h);
    if h in UncleMap(q) {
      var i :| 0 <= i < |q| && Embeds(q, i, h);
      var l :| 0 <= l < |q[i].uncles| && q[i].uncles[l].hash == h;
      UncleAt(q, i, l);
    }
    if UncleWith(q, h, n) {
      var i, l :| 0 <= i < |q| && 0 <= l < |q[i].uncles| && q[i].uncles[l].hash == h && q[i].uncles[l].number == n;
      UncleAt(q, i, l);
    }
  }

  lemma {:induction false} ChainUncles(c: Columns, q: seq<Block>)
    requires Agrees(c, q)
    ensures UnclesOk(q)
  {
  }

  lemma {:induction false} DescendsMeans(c: Columns, q: seq<Block>, u: Uncle)
    requires Agrees(c, q)
    ensures Descends(c, u) <==>
            && u.number > 0
            && (|| (u.number <= |q| && q[u.number - 1].hash == u.parent)
                || (!OnChain(q, u.parent) && UncleWith(q, u.parent, u.number - 1)))
  {
    ChainUncles(c, q);
    AgreesIndex(c, q);
    hide Agrees, UncleMap, UncleWith, UnclesOk;
    NumberIndexKeys(q, u.parent);
    if u.number > 0 { UncleMapMeans(q, u.parent, u.number - 1); }
  }

  lemma {:induction false} NewMeans(c: Columns, q: seq<Block>, h: Hash)
    requires Agrees(c, q)
    ensures !DoubleIncluded(c, h) <==> !OnChain(q, h) && forall n: nat :: !UncleWith(q, h, n)
  {
    ChainUncles(c, q);
    AgreesIndex(c, q);
    hide Agrees, UncleMap, UncleWith, UnclesOk;
    NumberIndexKeys(q, h);
    forall n: nat ensures UncleWith(q, h, n) <==> h in UncleMap(q) && UncleMap(q)[h].number == n {
      UncleMapMeans(q, h, n);
    }
    if h in UncleMap(q) { assert UncleWith(q, h, UncleMap(q)[h].number); }
  }

  /** Exactly the lists of at most two uncles are accepted of which each fits the chain. */
  lemma {:induction false} PassExactly(c: Columns, q: seq<Block>, b: Block, wellFormed: Uncle -> bool)
    requires Agrees(c, q) && b.number > 0
    ensures UnclesPass(c, b, wellFormed) <==>
            |b.uncles| <= 2 && forall k :: 0 <= k < |b.uncles| ==> UncleFits(q, b, wellFormed, k)
  {
    hide Agrees, Descends, DoubleIncluded, OnChain, UncleWith;
    forall k | 0 <= k < |b.uncles| ensures UncleOk(c, b, wellFormed, k) <==> UncleFits(q, b, wellFormed, k) {
      DescendsMeans(c, q, b.uncles[k]);
      NewMeans(c, q, b.uncles[k].hash);
    }
  }
}
