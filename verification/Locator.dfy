/**
  Block locators: a node describes its chain by a thinning list of ancestors, and a peer finds
  from it the latest block both have on their chains.
 */
module Locator {
  import opened Types
  import opened Arithmetic
  import opened HeaderTree
  import opened SkipList

  const MAX_LOCATOR_SIZE: nat := 101
  const ONE_DAY_BLOCK_NUMBER: nat := 8192
  const MAX_HEADERS_LEN: nat := 2000

  /** What a node answers ancestor queries from. */
  datatype Node = Node(genesis: Hash, headers: Headers, skips: map<Hash, Hash>, snapshot: Snapshot)

  predicate NodeOk(v: Node) {
    Tree(v.genesis, v.headers) && SkipsOk(v.genesis, v.headers, v.skips) && IsMain(v.headers, v.snapshot)
  }

  // ---------------------------------------------------------------- building a locator

  /** Ancestors of the start, heights strictly decreasing, from the start itself to genesis. */
  predicate IsLocator(g: Hash, hs: Headers, start: Hash, locator: seq<Hash>)
    requires Tree(g, hs) && start in hs
  {
    && Descending(g, hs, start, locator)
    && |locator| > 0 && locator[0] == start && locator[|locator| - 1] == g
  }

  predicate Descending(g: Hash, hs: Headers, start: Hash, locator: seq<Hash>)
    requires Tree(g, hs) && start in hs
  {
    && (forall i :: 0 <= i < |locator| ==> IsAncestor(g, hs, start, locator[i]))
    && (forall i, j :: 0 <= i < j < |locator| ==>
          locator[j] in hs && locator[i] in hs && hs[locator[j]].number < hs[locator[i]].number)
  }

  predicate IsAncestor(g: Hash, hs: Headers, h: Hash, a: Hash)
    requires Tree(g, hs) && h in hs
  {
    a in hs && hs[a].number <= hs[h].number && a == Ancestor(g, hs, h, hs[a].number)
  }

  lemma {:induction false} Pow2Sixty()
    ensures Pow2(64) == U64_LIMIT && Pow2(22) < U64_LIMIT
  {
    assert Pow2(1) == 2 * Pow2(0);
    hide Pow2;
    Pow2Square(1, 2);
    Pow2Square(2, 4);
    Pow2Square(4, 16);
    Pow2Square(8, 256);
    Pow2Square(16, 0x1_0000);
    Pow2Square(32, 0x1_0000_0000);
    Pow2Mono(22, 32);
  }

  /** The step after `len` entries. */
  function StepOf(len: nat): (s: nat)
    ensures s > 0
  {
    if len < 10 then 1 else Pow2(len - 9)
  }

  /** Where the walk stands: still subtracting steps, or halving towards the low blocks. */
  predicate Progress(top: nat, len: nat, index: nat) {
    || (if len < 10 then index + len == top else index + 2 * StepOf(len) + 7 == top)
    || (10 <= len <= 30 && index < StepOf(len))
  }

  lemma {:induction false} StepFits(top: nat, len: nat, index: nat)
    requires Progress(top, len, index) && top < U64_LIMIT
    ensures StepOf(len + 1) < U64_LIMIT && len <= 71
  {
    Pow2Sixty();
    if 10 <= len <= 30 {
      Pow2Mono(len - 8, 22);
    } else if len > 30 {
      if len >= 72 { Pow2Mono(64, len - 8); }
    }
  }

  /** One entry subtracted: the walk is still on course. */
  lemma {:induction false} ProgressDown(top: nat, len: nat, index: nat)
    requires Progress(top, len, index) && index >= StepOf(len + 1)
    ensures Progress(top, len + 1, index - StepOf(len + 1))
  {
    StepDoubles(len + 1);
    assert Pow2(1) == 2 * Pow2(0);
  }

  lemma {:induction false} ProgressHalf(top: nat, len: nat, index: nat)
    requires index < StepOf(len) && len < 31 && index > ONE_DAY_BLOCK_NUMBER
    ensures Progress(top, len, index / 2)
  {
  }

  lemma {:induction false} DescendingMore(g: Hash, hs: Headers, start: Hash, locator: seq<Hash>, h: Hash)
    requires Tree(g, hs) && start in hs && Descending(g, hs, start, locator) && IsAncestor(g, hs, start, h)
    requires h in hs && forall i :: 0 <= i < |locator| ==> locator[i] in hs && hs[locator[i]].number > hs[h].number
    ensures Descending(g, hs, start, locator + [h])
  {
    hide Tree, IsAncestor;
  }

  /** The height after the entry with number c, counted from 1, at height h: down one, or by doubling steps. */
  function NextHeight(c: nat, h: nat): nat {
    var step := if c < 10 then 1 else Pow2(c - 9);
    if h >= step then h - step else if c < 31 && h > 8192 then h / 2 else 0
  }

  /** The first ten entries are consecutive; then the gaps double, and the last low heights are halved. */
  predicate Stepping(hs: Headers, locator: seq<Hash>) {
    && (forall i :: 0 <= i < |locator| ==> locator[i] in hs)
    && forall i :: 0 < i < |locator| ==> hs[locator[i]].number == NextHeight(i, hs[locator[i - 1]].number)
  }

  lemma {:induction false} SteppingMore(hs: Headers, locator: seq<Hash>, h: Hash)
    requires Stepping(hs, locator) && h in hs
    requires locator != [] ==>
               && locator[|locator| - 1] in hs
               && hs[h].number == NextHeight(|locator|, hs[locator[|locator| - 1]].number)
    ensures Stepping(hs, locator + [h])
  {
  }

  lemma {:induction false} NextHeightIs(c: nat, h: nat)
    ensures NextHeight(c, h) == if h >= StepOf(c) then h - StepOf(c) else if c < 31 && h > 8192 then h / 2 else 0
  {
  }

  lemma {:induction false} StepDoubles(len: nat)
    requires len > 0
    ensures StepOf(len) == if len >= 10 then 2 * StepOf(len - 1) else StepOf(len - 1)
  {
  }

  lemma {:induction false} GenesisKnown(g: Hash, hs: Headers)
    requires Tree(g, hs)
    ensures g in hs && hs[g].number == 0
  {
  }

  method GetLocator(v: Node, start: Hash) returns (locator: seq<Hash>, overflow: bool)
    requires NodeOk(v) && start in v.headers && v.headers[start].number < U64_LIMIT
    ensures IsLocator(v.genesis, v.headers, start, locator) && |locator| <= 73 < MAX_LOCATOR_SIZE
    ensures Stepping(v.headers, locator) && !overflow
  {
    overflow := false;
    var g, hs := v.genesis, v.headers;
    ghost var top := hs[start].number;
    var step := 1;
    locator := [];
    var index: nat := hs[start].number;
    var base := start;
    while true
      invariant !overflow && step == StepOf(|locator|) && Progress(top, |locator|, index) && index <= top
      invariant IsAncestor(g, hs, start, base) && index <= hs[base].number
      invariant Descending(g, hs, start, locator)
      invariant forall i :: 0 <= i < |locator| ==> locator[i] in hs && hs[locator[i]].number > index
      invariant if locator == [] then index == top && base == start else locator[0] == start
      invariant Stepping(hs, locator)
      invariant locator != [] ==> index == NextHeight(|locator|, hs[locator[|locator| - 1]].number)
      decreases index
    {
      hide Tree, SkipsOk, IsMain, Progress, Descending, StepOf, Pow2, Stepping, NextHeight;
      var found := GetAncestor(g, hs, v.skips, v.snapshot, base, index);
      AncestorOf(g, hs, start, hs[base].number, index);
      var hash := found.value;
      DescendingMore(g, hs, start, locator, hash);
      SteppingMore(hs, locator, hash);
      locator := locator + [hash];
      NextHeightIs(|locator|, index);
      StepFits(top, |locator| - 1, index);
      StepDoubles(|locator|);
      if |locator| >= 10 { step, overflow := step * 2, overflow || step * 2 >= U64_LIMIT; }
      if index < step {
        if |locator| < 31 && index > ONE_DAY_BLOCK_NUMBER {
          ProgressHalf(top, |locator|, index);
          index := index / 2;
          base := hash;
          continue;
        }
        AncestorZero(g, hs, start);
        assert g in hs && hs[g].number == 0 by { GenesisKnown(g, hs); }
        if index != 0 {
          DescendingMore(g, hs, start, locator, g);
          SteppingMore(hs, locator, g);
          locator := locator + [g];
        }
        break;
      }
      ProgressDown(top, |locator| - 1, index);
      index := index - step;
      base := hash;
    }
  }

  // ---------------------------------------------------------------- comparing two headers of one node

  /** The latest header that both have as an ancestor. */
  predicate LatestCommon(g: Hash, hs: Headers, a: Hash, b: Hash, x: Hash)
    requires Tree(g, hs) && a in hs && b in hs
  {
    && IsAncestor(g, hs, a, x) && IsAncestor(g, hs, b, x)
    && forall m :: hs[x].number < m && m <= hs[a].number && m <= hs[b].number ==>
         Ancestor(g, hs, a, m) != Ancestor(g, hs, b, m)
  }

  /** If the peer reorganised, goes back from the last common header as far as needed. */
  method LastCommonAncestor(v: Node, last: Hash, best: Hash) returns (r: Option<Hash>)
    requires NodeOk(v) && last in v.headers && best in v.headers && v.headers[last].number <= v.headers[best].number
    ensures r.Some? && LatestCommon(v.genesis, v.headers, last, best, r.value)
  {
    hide SkipsOk, IsMain, Tree;
    var g, hs := v.genesis, v.headers;
    var right := GetAncestor(g, hs, v.skips, v.snapshot, best, hs[last].number);
    var mright := right.value;
    if mright == last { return Some(mright); }
    var mleft := last;
    while mleft != mright
      invariant mleft in hs && mright in hs && hs[mleft].number == hs[mright].number <= hs[last].number
      invariant IsAncestor(g, hs, last, mleft) && IsAncestor(g, hs, best, mright)
      invariant forall m :: hs[mleft].number < m <= hs[last].number ==>
                  Ancestor(g, hs, last, m) != Ancestor(g, hs, best, m)
      decreases hs[mleft].number
    {
      var n := hs[mleft].number;
      AncestorZero(g, hs, last);
      AncestorZero(g, hs, best);
      var down := GetAncestor(g, hs, v.skips, v.snapshot, mleft, n - 1);
      AncestorOf(g, hs, last, n, n - 1);
      AncestorOf(g, hs, best, n, n - 1);
      mleft := down.value;
      down := GetAncestor(g, hs, v.skips, v.snapshot, mright, n - 1);
      mright := down.value;
    }
    return Some(mleft);
  }

  // ---------------------------------------------------------------- answering a peer's locator

  /** The latest header of the main chain that is an ancestor of h. */
  predicate LatestOnMain(g: Hash, hs: Headers, s: Snapshot, h: Hash, n: nat)
    requires Tree(g, hs) && h in hs
  {
    && n < |s.main| && n <= hs[h].number && Ancestor(g, hs, h, n) == s.main[n]
    && forall m :: n < m && m <= hs[h].number && m < |s.main| ==> Ancestor(g, hs, h, m) != s.main[m]
  }

  /** Position of the first locator entry on the main chain. */
  function FirstOnMain(s: Snapshot, locator: seq<Hash>): (i: nat)
    ensures i <= |locator| && (i < |locator| ==> locator[i] in s.numberOf)
    ensures forall j :: 0 <= j < i ==> locator[j] !in s.numberOf
  {
    if locator == [] || locator[0] in s.numberOf then 0 else 1 + FirstOnMain(s, locator[1..])
  }

  /** What a locator is answered with, on the headers of stored blocks. */
  predicate Answer(g: Hash, stored: Headers, s: Snapshot, locator: seq<Hash>, n: nat)
    requires Tree(g, stored)
  {
    var i := FirstOnMain(s, locator);
    && i < |locator|
    && if i > 0 && s.numberOf[locator[i]] > 0 && locator[i - 1] in stored
       then LatestOnMain(g, stored, s, locator[i - 1], n)
       else n == s.numberOf[locator[i]]
  }

  method LocateLatestCommonBlock(g: Hash, stored: Headers, s: Snapshot, locator: seq<Hash>) returns (r: Option<nat>)
    requires Tree(g, stored) && IsMain(stored, s)
    ensures r.None? <==> locator == [] || locator[|locator| - 1] != g
    ensures r.Some? ==> Answer(g, stored, s, locator, r.value)
  {
    if locator == [] || locator[|locator| - 1] != g { return None; }
    GenesisOnMain(g, stored, s);
    var index := 0;
    while locator[index] !in s.numberOf
      invariant 0 <= index < |locator| && forall j :: 0 <= j < index ==> locator[j] !in s.numberOf
      decreases |locator| - index
    {
      index := index + 1;
    }
    FirstIs(s, locator, index);
    var common := s.numberOf[locator[index]];
    if index == 0 || common == 0 { return Some(common); }
    if locator[index - 1] !in stored { return Some(common); }
    var h := locator[index - 1];
    OffMain(g, stored, s, h);
    var current := stored[h].parent;
    ghost var height := stored[h].number;
    while current !in s.numberOf
      invariant 0 < height <= stored[h].number && current == Ancestor(g, stored, h, height - 1)
      invariant forall m :: height <= m <= stored[h].number && m < |s.main| ==> Ancestor(g, stored, h, m) != s.main[m]
      decreases height
    {
      OffMain(g, stored, s, current);
      AncestorOf(g, stored, h, height - 1, height - 2);
      current := stored[current].parent;
      height := height - 1;
    }
    assert MainAt(stored, s, s.numberOf[current]);
    return Some(s.numberOf[current]);
  }

  lemma {:induction false} GenesisOnMain(g: Hash, stored: Headers, s: Snapshot)
    requires Tree(g, stored) && IsMain(stored, s)
    ensures g in s.numberOf && s.numberOf[g] == 0
  {
    assert MainAt(stored, s, 0);
    assert MainAt(stored, s, s.numberOf[g]);
  }

  lemma {:induction false} FirstIs(s: Snapshot, locator: seq<Hash>, i: nat)
    requires i < |locator| && locator[i] in s.numberOf && forall j :: 0 <= j < i ==> locator[j] !in s.numberOf
    ensures FirstOnMain(s, locator) == i
  {
  }

  /** A stored header off the main chain has a stored parent, and differs from the main chain at its height. */
  lemma {:induction false} OffMain(g: Hash, stored: Headers, s: Snapshot, h: Hash)
    requires Tree(g, stored) && IsMain(stored, s) && h in stored && h !in s.numberOf
    ensures stored[h].number > 0 && stored[h].parent in stored
    ensures stored[h].parent == Ancestor(g, stored, h, stored[h].number - 1)
    ensures stored[h].number < |s.main| ==> s.main[stored[h].number] != h
  {
    GenesisOnMain(g, stored, s);
    assert Linked(stored, h);
    if stored[h].number < |s.main| { assert MainAt(stored, s, stored[h].number); }
  }

  // ---------------------------------------------------------------- both nodes together

  /** A header of the response: the next height, and its parent the header before. */
  predicate LinksAt(stored: Headers, s: Snapshot, n: nat, r: seq<Hash>, i: nat)
    requires n < |s.main| && i < |r|
  {
    && r[i] in stored && stored[r[i]].number == n + 1 + i
    && stored[r[i]].parent == if i == 0 then s.main[n] else r[i - 1]
  }

  predicate SubTree(stored: Headers, all: Headers) {
    forall h :: h in stored ==> h in all && all[h] == stored[h]
  }

  lemma {:induction false} SubAncestor(g: Hash, stored: Headers, all: Headers, h: Hash, n: nat)
    requires Tree(g, stored) && Tree(g, all) && SubTree(stored, all) && h in stored && n <= stored[h].number
    ensures h in all && Ancestor(g, all, h, n) == Ancestor(g, stored, h, n)
    decreases stored[h].number
  {
    if stored[h].number > n {
      assert Linked(stored, h);
      SubAncestor(g, stored, all, stored[h].parent, n);
    }
  }

  /** An entry on the peer's main chain sits there at its own height. */
  lemma {:induction false} EntryHeight(g: Hash, stored: Headers, all: Headers, s: Snapshot, h: Hash)
    requires Tree(g, stored) && SubTree(stored, all) && IsMain(stored, s) && h in s.numberOf
    ensures h in all && h in stored && all[h].number == s.numberOf[h] == stored[h].number
  {
    assert MainAt(stored, s, s.numberOf[h]);
  }

  lemma {:induction false} AncestorsNest(g: Hash, hs: Headers, start: Hash, a: Hash, b: Hash)
    requires Tree(g, hs) && start in hs && IsAncestor(g, hs, start, a) && IsAncestor(g, hs, start, b)
    requires hs[b].number <= hs[a].number
    ensures IsAncestor(g, hs, a, b)
  {
    AncestorOf(g, hs, start, hs[a].number, hs[b].number);
  }

  /**
    A locator built by one node and answered by another: the answer is a height at which the
    two chains agree, and no locator entry on the peer's main chain lies above it.
   */
  lemma {:induction false} AnswerIsCommon(g: Hash, all: Headers, stored: Headers, s: Snapshot, start: Hash,
                                          locator: seq<Hash>, n: nat)
    requires Tree(g, all) && Tree(g, stored) && SubTree(stored, all) && IsMain(stored, s)
    requires start in all && IsLocator(g, all, start, locator) && Answer(g, stored, s, locator, n)
    ensures n < |s.main| && n <= all[start].number && Ancestor(g, all, start, n) == s.main[n]
    ensures forall i :: 0 <= i < |locator| && locator[i] in s.numberOf ==> s.numberOf[locator[i]] <= n
  {
    var i := FirstOnMain(s, locator);
    var k := s.numberOf[locator[i]];
    EntryHeight(g, stored, all, s, locator[i]);
    assert IsAncestor(g, all, start, locator[i]);
    hide Tree, SubTree, IsMain;
    assert k < |s.main| && s.main[k] == locator[i] by { EntryPlace(g, stored, s, locator[i]); }
    if n != k {
      var h := locator[i - 1];
      assert IsAncestor(g, all, start, h);
      SubAncestor(g, stored, all, h, n);
      AncestorOf(g, all, start, all[h].number, n);
      AncestorsNest(g, all, start, h, locator[i]);
      assert stored[h].number == all[h].number by { SameHeader(stored, all, h); }
      SubAncestor(g, stored, all, h, k);
    }
    assert n >= k;
    forall j | 0 <= j < |locator| && locator[j] in s.numberOf ensures s.numberOf[locator[j]] <= n {
      EntryHeight(g, stored, all, s, locator[j]);
    }
  }

  lemma {:induction false} SameHeader(stored: Headers, all: Headers, h: Hash)
    requires SubTree(stored, all) && h in stored
    ensures h in all && all[h] == stored[h]
  {
  }

  lemma {:induction false} EntryPlace(g: Hash, stored: Headers, s: Snapshot, h: Hash)
    requires IsMain(stored, s) && h in s.numberOf
    ensures s.numberOf[h] < |s.main| && s.main[s.numberOf[h]] == h
  {
  }

  lemma {:induction false} LocatorTransfers(g: Hash, hs: Headers, all: Headers, start: Hash, locator: seq<Hash>)
    requires Tree(g, hs) && Tree(g, all) && SubTree(hs, all) && start in hs && IsLocator(g, hs, start, locator)
    ensures start in all && IsLocator(g, all, start, locator)
  {
    hide Tree, SubTree;
    SameHeader(hs, all, start);
    forall i | 0 <= i < |locator|
      ensures IsAncestor(g, all, start, locator[i]) && locator[i] in hs && all[locator[i]] == hs[locator[i]]
    {
      EntryTransfers(g, hs, all, start, locator[i]);
    }
  }

  lemma {:induction false} EntryTransfers(g: Hash, hs: Headers, all: Headers, start: Hash, h: Hash)
    requires Tree(g, hs) && Tree(g, all) && SubTree(hs, all) && start in hs && start in all
    requires IsAncestor(g, hs, start, h)
    ensures IsAncestor(g, all, start, h) && h in hs && all[h] == hs[h]
  {
    SubAncestor(g, hs, all, start, hs[h].number);
    SameHeader(hs, all, h);
    SameHeader(hs, all, start);
  }

  /** The main chain has the start or its ancestor at this height. */
  predicate SharedAt(g: Hash, all: Headers, s: Snapshot, start: Hash, t: nat)
    requires Tree(g, all) && start in all
  {
    t < |s.main| && t <= all[start].number && Ancestor(g, all, start, t) == s.main[t]
  }

  lemma {:induction false} SteppingTransfers(hs: Headers, all: Headers, locator: seq<Hash>)
    requires SubTree(hs, all) && Stepping(hs, locator)
    ensures Stepping(all, locator)
  {
  }

  /** The first ten entries are the start and its ancestors one by one. */
  lemma {:induction false} FirstTen(g: Hash, hs: Headers, start: Hash, locator: seq<Hash>, i: nat)
    requires Tree(g, hs) && start in hs && IsLocator(g, hs, start, locator) && Stepping(hs, locator)
    requires i < 10 && i <= hs[start].number
    ensures i < |locator| && locator[i] in hs && hs[locator[i]].number == hs[start].number - i
  {
    if i > 0 {
      FirstTen(g, hs, start, locator, i - 1);
      GenesisKnown(g, hs);
    }
  }

  /** Chains that part less than ten blocks below the start are answered with where they part. */
  lemma {:induction false} NearMeeting(g: Hash, all: Headers, stored: Headers, s: Snapshot, start: Hash,
                                       locator: seq<Hash>, n: nat, t: nat)
    requires Tree(g, all) && Tree(g, stored) && SubTree(stored, all) && IsMain(stored, s)
    requires start in all && IsLocator(g, all, start, locator) && Stepping(all, locator)
    requires forall i :: 0 <= i < |locator| && locator[i] in s.numberOf ==> s.numberOf[locator[i]] <= n
    requires SharedAt(g, all, s, start, t) && all[start].number <= t + 9
    ensures t <= n
  {
    var i := all[start].number - t;
    FirstTen(g, all, start, locator, i);
    hide Tree, SubTree;
    assert IsAncestor(g, all, start, locator[i]);
    assert MainAt(stored, s, t);
    assert MainAt(stored, s, s.numberOf[s.main[t]]);
  }

  /** A block on the main chain has its ancestors there; so has a height that both chains share. */
  lemma {:induction false} SharedBelow(g: Hash, all: Headers, stored: Headers, s: Snapshot, start: Hash, t: nat, m: nat)
    requires Tree(g, all) && Tree(g, stored) && SubTree(stored, all) && IsMain(stored, s) && start in all
    requires SharedAt(g, all, s, start, t) && m <= t
    ensures SharedAt(g, all, s, start, m)
  {
    MainAncestor(g, stored, s, t, m);
    assert MainAt(stored, s, t);
    AncestorOf(g, all, start, t, m);
    SubAncestor(g, stored, all, s.main[t], m);
  }

  lemma {:induction false} MainKnown(stored: Headers, s: Snapshot, m: nat)
    requires IsMain(stored, s) && m < |s.main|
    ensures s.main[m] in s.numberOf
  {
    assert MainAt(stored, s, m);
  }

  lemma {:induction false} StoredBelow(g: Hash, all: Headers, stored: Headers, start: Hash, h: Hash)
    requires Tree(g, all) && Tree(g, stored) && SubTree(stored, all) && start in stored && IsAncestor(g, all, start, h)
    ensures h in stored
  {
    SubAncestor(g, stored, all, start, all[h].number);
    AncestorOf(g, stored, start, stored[start].number, all[h].number);
  }

  /** If the peer has the start, an answer above genesis is the latest height that both chains share. */
  lemma {:induction false} AnswerIsLatest(g: Hash, all: Headers, stored: Headers, s: Snapshot, start: Hash,
                                          locator: seq<Hash>, n: nat, t: nat)
    requires Tree(g, all) && Tree(g, stored) && SubTree(stored, all) && IsMain(stored, s)
    requires start in stored && start in all && IsLocator(g, all, start, locator) && Answer(g, stored, s, locator, n)
    requires n > 0 && SharedAt(g, all, s, start, t)
    ensures t <= n
  {
    var i := FirstOnMain(s, locator);
    EntryHeight(g, stored, all, s, locator[i]);
    if i > 0 {
      var h := locator[i - 1];
      assert IsAncestor(g, all, start, h);
      StoredBelow(g, all, stored, start, h);
      SameHeader(stored, all, h);
      if all[h].number <= t {
        SharedBelow(g, all, stored, s, start, t, all[h].number);
        MainKnown(stored, s, all[h].number);
        assert false;
      }
      AncestorOf(g, all, start, all[h].number, t);
      SubAncestor(g, stored, all, h, t);
    }
  }

  /** One round of header sync between two nodes that agree on genesis and on what a hash stands for. */
  method Exchange(v: Node, start: Hash, stored: Headers, s: Snapshot, ghost all: Headers) returns (n: nat,
                                                                                                   response: seq<Hash>)
    requires NodeOk(v) && start in v.headers && v.headers[start].number < U64_LIMIT
    requires Tree(v.genesis, stored) && IsMain(stored, s)
    requires Tree(v.genesis, all) && SubTree(v.headers, all) && SubTree(stored, all)
    ensures start in all && n < |s.main| && n <= all[start].number && Ancestor(v.genesis, all, start, n) == s.main[n]
    ensures start in s.numberOf ==> n == all[start].number
    ensures forall t: nat :: SharedAt(v.genesis, all, s, start, t) && all[start].number <= t + 9 ==> t <= n
    ensures start in stored && n > 0 ==> forall t: nat :: SharedAt(v.genesis, all, s, start, t) ==> t <= n
    ensures |response| <= 2000 && forall i :: 0 <= i < |response| ==> LinksAt(stored, s, n, response, i)
    ensures |response| == 2000 || n + 1 + |response| == |s.main| ||
            (n + 1 + |response| < |s.main| && s.main[n + 1 + |response|] == ZERO_HASH)
  {
    hide Tree, IsMain, SubTree;
    var locator, _ := GetLocator(v, start);
    var found := LocateLatestCommonBlock(v.genesis, stored, s, locator);
    LocatorTransfers(v.genesis, v.headers, all, start, locator);
    AnswerIsCommon(v.genesis, all, stored, s, start, locator, found.value);
    if start in s.numberOf { EntryHeight(v.genesis, stored, all, s, start); }
    if start in stored && found.value > 0 {
      forall t: nat | SharedAt(v.genesis, all, s, start, t) ensures t <= found.value {
        AnswerIsLatest(v.genesis, all, stored, s, start, locator, found.value, t);
      }
    }
    forall t: nat | SharedAt(v.genesis, all, s, start, t) && all[start].number <= t + 9 ensures t <= found.value {
      SteppingTransfers(v.headers, all, locator);
      NearMeeting(v.genesis, all, stored, s, start, locator, found.value, t);
    }
    ResponseLinks(v.genesis, stored, s, found.value, ZERO_HASH);
    n, response := found.value, LocatorResponse(s, found.value, ZERO_HASH);
  }

  // ---------------------------------------------------------------- the headers sent back

  /** The leading part of a list before an element. */
  function TakeUntil(hs: seq<Hash>, stop: Hash): (r: seq<Hash>)
    ensures |r| <= |hs| && r == hs[..|r|] && stop !in r && (|r| < |hs| ==> hs[|r|] == stop)
  {
    if hs == [] || hs[0] == stop then [] else [hs[0]] + TakeUntil(hs[1..], stop)
  }

  function LocatorResponse(s: Snapshot, n: nat, stop: Hash): seq<Hash> {
    var end := if n + 1 + MAX_HEADERS_LEN < |s.main| then n + 1 + MAX_HEADERS_LEN else |s.main|;
    if n + 1 >= end then [] else TakeUntil(s.main[n + 1..end], stop)
  }

  /** The response links up from the answered block, and ends only at the limit, the tip or the stop. */
  lemma {:induction false} ResponseLinks(g: Hash, stored: Headers, s: Snapshot, n: nat, stop: Hash)
    requires Tree(g, stored) && IsMain(stored, s) && n < |s.main|
    ensures var r := LocatorResponse(s, n, stop);
            && |r| <= MAX_HEADERS_LEN && stop !in r
            && (forall i :: 0 <= i < |r| ==> LinksAt(stored, s, n, r, i))
            && (|r| == MAX_HEADERS_LEN || n + 1 + |r| == |s.main| || s.main[n + 1 + |r|] == stop)
  {
    var r := LocatorResponse(s, n, stop);
    ResponseIs(s, n, stop);
    hide LocatorResponse, Tree;
    forall i | 0 <= i < |r| ensures LinksAt(stored, s, n, r, i) {
      assert MainAt(stored, s, n + 1 + i);
    }
  }

  lemma {:induction false} ResponseIs(s: Snapshot, n: nat, stop: Hash)
    requires n < |s.main|
    ensures var r := LocatorResponse(s, n, stop);
            && |r| <= MAX_HEADERS_LEN && stop !in r && n + 1 + |r| <= |s.main|
            && (forall i :: 0 <= i < |r| ==> r[i] == s.main[n + 1 + i])
            && (|r| == MAX_HEADERS_LEN || n + 1 + |r| == |s.main| || s.main[n + 1 + |r|] == stop)
  {
  }
}
