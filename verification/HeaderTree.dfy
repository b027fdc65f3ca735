/**
  Headers known to a node form a tree rooted at genesis. This is the reference meaning of every
  ancestor query: repeated parent steps.
 */
module HeaderTree {
  import opened Types

  datatype Header = Header(hash: Hash, parent: Hash, number: nat)

  type Headers = map<Hash, Header>

  predicate Tree(g: Hash, hs: Headers) {
    && g in hs && hs[g].number == 0
    && (forall h :: h in hs ==> hs[h].hash == h)
    && (forall h :: h in hs && hs[h].number == 0 ==> h == g)
    && (forall h {:trigger Linked(hs, h)} :: h in hs && hs[h].number > 0 ==> Linked(hs, h))
  }

  predicate Linked(hs: Headers, h: Hash)
    requires h in hs
  {
    hs[h].parent in hs && hs[hs[h].parent].number + 1 == hs[h].number
  }

  /** The header at height n reached from h by parent steps. */
  function Ancestor(g: Hash, hs: Headers, h: Hash, n: nat): (a: Hash)
    requires Tree(g, hs) && h in hs && n <= hs[h].number
    ensures a in hs && hs[a].number == n
    decreases hs[h].number
  {
    if hs[h].number == n then h else
    assert Linked(hs, h);
    Ancestor(g, hs, hs[h].parent, n)
  }

  /** An ancestor of an ancestor is an ancestor. */
  lemma {:induction false} AncestorOf(g: Hash, hs: Headers, h: Hash, m: nat, n: nat)
    requires Tree(g, hs) && h in hs && n <= m <= hs[h].number
    ensures Ancestor(g, hs, Ancestor(g, hs, h, m), n) == Ancestor(g, hs, h, n)
    decreases hs[h].number
  {
    if hs[h].number > m {
      assert Linked(hs, h);
      AncestorOf(g, hs, hs[h].parent, m, n);
    }
  }

  lemma {:induction false} AncestorZero(g: Hash, hs: Headers, h: Hash)
    requires Tree(g, hs) && h in hs
    ensures Ancestor(g, hs, h, 0) == g
  {
  }

  /** Two headers that share an ancestor share everything below it. */
  lemma {:induction false} MeetBelow(g: Hash, hs: Headers, h: Hash, k: Hash, m: nat, n: nat)
    requires Tree(g, hs) && h in hs && k in hs && n <= m <= hs[h].number && m <= hs[k].number
    requires Ancestor(g, hs, h, m) == Ancestor(g, hs, k, m)
    ensures Ancestor(g, hs, h, n) == Ancestor(g, hs, k, n)
  {
    AncestorOf(g, hs, h, m, n);
    AncestorOf(g, hs, k, m, n);
  }

  /** Learning of one more header changes no ancestor. */
  lemma {:induction false} AncestorStable(g: Hash, hs: Headers, x: Header, h: Hash, n: nat)
    requires Tree(g, hs) && h in hs && n <= hs[h].number && x.hash !in hs && Tree(g, hs[x.hash := x])
    ensures Ancestor(g, hs[x.hash := x], h, n) == Ancestor(g, hs, h, n)
    decreases hs[h].number
  {
    if hs[h].number > n {
      assert Linked(hs, h);
      AncestorStable(g, hs, x, hs[h].parent, n);
    }
  }

  lemma {:induction false} TreeGrows(g: Hash, hs: Headers, x: Header)
    requires Tree(g, hs) && x.hash !in hs && x.parent in hs && x.number == hs[x.parent].number + 1
    ensures Tree(g, hs[x.hash := x])
  {
    var hs' := hs[x.hash := x];
    forall h | h in hs' && hs'[h].number > 0 ensures Linked(hs', h) {
      if h != x.hash { assert Linked(hs, h); }
    }
  }

  // ---------------------------------------------------------------- the main chain

  /** The main chain of a snapshot: hashes by height, and heights by hash. */
  datatype Snapshot = Snapshot(main: seq<Hash>, numberOf: map<Hash, nat>)

  predicate IsMain(hs: Headers, s: Snapshot) {
    && |s.main| > 0
    && (forall i :: 0 <= i < |s.main| ==> MainAt(hs, s, i))
    && (forall h :: h in s.numberOf ==> s.numberOf[h] < |s.main| && s.main[s.numberOf[h]] == h)
  }

  predicate MainAt(hs: Headers, s: Snapshot, i: nat)
    requires i < |s.main|
  {
    && s.main[i] in hs && hs[s.main[i]].number == i && (i > 0 ==> hs[s.main[i]].parent == s.main[i - 1])
    && s.main[i] in s.numberOf
  }

  lemma {:induction false} MainAncestor(g: Hash, hs: Headers, s: Snapshot, j: nat, i: nat)
    requires Tree(g, hs) && IsMain(hs, s) && i <= j < |s.main|
    ensures s.main[j] in hs && hs[s.main[j]].number == j && Ancestor(g, hs, s.main[j], i) == s.main[i]
    decreases j
  {
    assert MainAt(hs, s, j);
    if i < j {
      assert Linked(hs, s.main[j]);
      MainAncestor(g, hs, s, j - 1, i);
    }
  }
}
