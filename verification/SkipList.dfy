/**
  Ancestor lookup over skip pointers, with a shortcut through the main chain. Whatever pointers
  happen to exist, the answer is the one parent steps would give.
 */
module SkipList {
  import opened Types
  import opened Arithmetic
  import opened HeaderTree

  /** Clears the lowest one bit. */
  function InvertLowestOne(n: nat): (r: nat)
    ensures n > 0 ==> r < n
  {
    if n == 0 then 0 else if n % 2 == 1 then n - 1 else 2 * InvertLowestOne(n / 2)
  }

  /** The value of the lowest one bit. */
  function LowestOne(n: nat): (r: nat)
    requires n > 0
  {
    if n % 2 == 1 then 1 else 2 * LowestOne(n / 2)
  }

  /** The bits above the lowest one. */
  function HighBits(n: nat): nat
    requires n > 0
  {
    if n % 2 == 1 then n / 2 else HighBits(n / 2)
  }

  /** A number is its high bits, a one bit and zeros; inverting the one bit leaves the high bits. */
  lemma {:induction false} InvertedIs(n: nat)
    requires n > 0
    ensures n == (2 * HighBits(n) + 1) * LowestOne(n) && InvertLowestOne(n) == 2 * HighBits(n) * LowestOne(n)
  {
    if n % 2 == 0 { InvertedIs(n / 2); }
  }

  /** Which height a skip pointer leads to. */
  function GetSkipHeight(height: nat): (r: nat)
    ensures height > 0 ==> r < height
  {
    if height < 2 then 0
    else if height % 2 == 1 then InvertLowestOne(InvertLowestOne(height - 1)) + 1
    else InvertLowestOne(height)
  }

  lemma {:induction false} InvertedPower(a: nat, k: nat)
    ensures InvertLowestOne((2 * a + 1) * Pow2(k)) == 2 * a * Pow2(k)
  {
    if k > 0 {
      InvertedPower(a, k - 1);
      Doubled(2 * a + 1, k);
      Doubled(2 * a, k);
    }
  }

  lemma {:induction false} Doubled(x: nat, k: nat)
    requires k > 0
    ensures x * Pow2(k) == 2 * (x * Pow2(k - 1))
  {
  }

  lemma {:induction false} EvenPower(x: nat, k: nat)
    requires k > 0
    ensures x * Pow2(k) % 2 == 0 && (x > 0 ==> x * Pow2(k) >= 2)
  {
    Doubled(x, k);
    if x > 0 { MulPositive(x, Pow2(k - 1)); }
  }

  lemma {:induction false} SkipEven(a: nat, k: nat)
    requires k > 0
    ensures GetSkipHeight((2 * a + 1) * Pow2(k)) == 2 * a * Pow2(k)
  {
    EvenPower(2 * a + 1, k);
    InvertedPower(a, k);
    hide InvertLowestOne, Pow2;
  }

  /** An odd height is one more than an even one, which loses two bits. */
  lemma {:induction false} SkipOdd(n: nat, m: nat)
    requires n > 0 && n % 2 == 0 && InvertLowestOne(InvertLowestOne(n)) == m
    ensures GetSkipHeight(n + 1) == m + 1
  {
  }

  lemma {:induction false} TwoBits(a: nat, j: nat, k: nat)
    requires j < k
    ensures InvertLowestOne((2 * a + 1) * Pow2(k) + Pow2(j)) == (2 * a + 1) * Pow2(k)
  {
    var x := 2 * a + 1;
    var c := x * Pow2(k - j - 1);
    assert 2 * c * Pow2(j) == x * Pow2(k) by {
      Pow2Add(k - j, j);
      Doubled(x, k - j);
      Assoc(x, Pow2(k - j), Pow2(j));
    }
    Distribute(2 * c, Pow2(j));
    InvertedPower(c, j);
  }

  /**
    Every height above 1 has one of these forms: even ones lose their lowest one bit, odd ones keep
    the final bit and lose the two lowest one bits above it, as far as there are two.
   */
  lemma {:induction false} SkipHeightIs(a: nat, j: nat, k: nat)
    requires 0 < j < k
    ensures GetSkipHeight((2 * a + 1) * Pow2(j)) == 2 * a * Pow2(j)
    ensures GetSkipHeight(Pow2(j) + 1) == 1
    ensures GetSkipHeight((2 * a + 1) * Pow2(k) + Pow2(j) + 1) == 2 * a * Pow2(k) + 1
  {
    SkipEven(a, j);
    EvenPower(1, j);
    InvertedPower(0, j);
    SkipOdd(Pow2(j), 0);
    EvenPower(2 * a + 1, k);
    TwoBits(a, j, k);
    InvertedPower(a, k);
    hide InvertLowestOne, GetSkipHeight, Pow2;
    SkipOdd((2 * a + 1) * Pow2(k) + Pow2(j), 2 * a * Pow2(k));
  }

  /** Every skip pointer leads to the ancestor at the skip height. */
  predicate SkipsOk(g: Hash, hs: Headers, skips: map<Hash, Hash>)
    requires Tree(g, hs)
  {
    forall h :: h in skips ==> SkipOk(g, hs, skips, h)
  }

  predicate SkipOk(g: Hash, hs: Headers, skips: map<Hash, Hash>, h: Hash)
    requires Tree(g, hs) && h in skips
  {
    h in hs && hs[h].number > 0 && skips[h] == Ancestor(g, hs, h, GetSkipHeight(hs[h].number))
  }

  /** The main-chain shortcut: from a main-chain header straight to the wanted height. */
  function FastScan(hs: Headers, s: Snapshot, n: nat, current: Hash): Option<Hash>
    requires current in hs
  {
    if hs[current].number < |s.main| && current in s.numberOf && n < |s.main| && s.main[n] in hs
    then Some(s.main[n])
    else None
  }

  lemma {:induction false} FastScanIs(g: Hash, hs: Headers, s: Snapshot, n: nat, current: Hash)
    requires Tree(g, hs) && IsMain(hs, s) && current in hs && n <= hs[current].number
    ensures FastScan(hs, s, n, current).Some? ==> FastScan(hs, s, n, current).value == Ancestor(g, hs, current, n)
  {
    if current in s.numberOf {
      assert MainAt(hs, s, s.numberOf[current]);
      MainAncestor(g, hs, s, s.numberOf[current], n);
    }
  }

  /** Whether the walk follows the skip pointer: unless the parent's pointer is the better one. */
  predicate FollowSkip(walk: nat, n: nat)
    requires walk > 0
  {
    var skip, prev := GetSkipHeight(walk), GetSkipHeight(walk - 1);
    skip == n || (skip > n && !(prev + 2 < skip && prev >= n))
  }

  method GetAncestor(g: Hash, hs: Headers, skips: map<Hash, Hash>, s: Snapshot, start: Hash,
                     n: nat) returns (r: Option<Hash>)
    requires Tree(g, hs) && SkipsOk(g, hs, skips) && IsMain(hs, s)
    ensures r == if start in hs && n <= hs[start].number then Some(Ancestor(g, hs, start, n)) else None
  {
    hide IsMain, Tree;
    if start !in hs { return None; }
    var current := start;
    if n > hs[current].number { return None; }
    var walk := hs[current].number;
    while walk > n
      invariant current in hs && hs[current].number == walk >= n
      invariant Ancestor(g, hs, current, n) == Ancestor(g, hs, start, n)
      decreases walk
    {
      if current in skips && FollowSkip(walk, n) {
        assert SkipOk(g, hs, skips, current);
        AncestorOf(g, hs, current, GetSkipHeight(walk), n);
        current := skips[current];
        walk := GetSkipHeight(walk);
      } else {
        ParentStep(g, hs, current, n);
        current := hs[current].parent;
        walk := walk - 1;
      }
      FastScanIs(g, hs, s, n, current);
      var target := FastScan(hs, s, n, current);
      if target.Some? {
        current := target.value;
        break;
      }
    }
    return Some(current);
  }

  lemma {:induction false} ParentStep(g: Hash, hs: Headers, h: Hash, n: nat)
    requires Tree(g, hs) && h in hs && n < hs[h].number
    ensures hs[h].parent in hs && hs[hs[h].parent].number + 1 == hs[h].number
    ensures Ancestor(g, hs, hs[h].parent, n) == Ancestor(g, hs, h, n)
  {
    assert Linked(hs, h);
  }

  /** The header map: every known header, and the skip pointers of those not yet stored as blocks. */
  class HeaderMap {
    const genesis: Hash
    var headers: Headers
    var skips: map<Hash, Hash>

    predicate Valid()
      reads this
    {
      Tree(genesis, headers) && SkipsOk(genesis, headers, skips)
    }

    constructor (g: Header)
      requires g.number == 0
      ensures Valid() && genesis == g.hash && headers == map[g.hash := g] && skips == map[]
    {
      genesis := g.hash;
      headers := map[g.hash := g];
      skips := map[];
    }

    /** `insert_valid_header`: a header whose parent is known gets its skip pointer. */
    method InsertValidHeader(s: Snapshot, x: Header)
      requires Valid() && IsMain(headers, s)
      requires x.parent in headers && x.number == headers[x.parent].number + 1
      requires x.hash in headers ==> headers[x.hash] == x
      modifies this
      ensures Valid() && headers == old(headers)[x.hash := x]
      ensures x.hash in skips && skips == old(skips)[x.hash := skips[x.hash]]
    {
      hide IsMain;
      if x.hash !in headers { TreeGrows(genesis, headers, x); } else { assert headers[x.hash := x] == headers; }
      var skip := GetAncestor(genesis, headers, skips, s, x.parent, GetSkipHeight(x.number));
      SkipsGrow(genesis, headers, skips, x, skip.value);
      headers, skips := headers[x.hash := x], skips[x.hash := skip.value];
    }

    /** Once the block is stored its header is read from there, without a pointer. */
    method Forget(h: Hash)
      requires Valid()
      modifies this`skips
      ensures Valid() && skips == old(skips) - {h}
    {
      forall k | k in skips - {h} ensures SkipOk(genesis, headers, skips - {h}, k) {
        assert SkipOk(genesis, headers, skips, k);
      }
      skips := skips - {h};
    }
  }

  /** The new pointer is right, and the old ones stay right. */
  lemma {:induction false} SkipsGrow(g: Hash, hs: Headers, skips: map<Hash, Hash>, x: Header, skip: Hash)
    requires Tree(g, hs) && SkipsOk(g, hs, skips) && x.parent in hs && x.number == hs[x.parent].number + 1
    requires x.hash in hs ==> hs[x.hash] == x
    requires Tree(g, hs[x.hash := x]) && skip == Ancestor(g, hs, x.parent, GetSkipHeight(x.number))
    ensures SkipsOk(g, hs[x.hash := x], skips[x.hash := skip])
  {
    var hs', skips' := hs[x.hash := x], skips[x.hash := skip];
    if x.hash in hs { assert hs' == hs; }
    forall h | h in skips' ensures SkipOk(g, hs', skips', h) {
      var from := if h == x.hash then x.parent else h;
      if h != x.hash { assert SkipOk(g, hs, skips, h); }
      if x.hash !in hs { AncestorStable(g, hs, x, from, GetSkipHeight(hs'[h].number)); }
    }
  }
}
