/**
  What the index columns hold for a main chain, and how attaching and rolling back blocks moves
  them from one chain to another. Rolling back is shown not to depend on the order in which the
  detached blocks are processed.
 */
module MainChain {
  import opened Types
  import opened Ledger
  import opened Store
  import opened CellSet

  /** Heights are positions. */
  predicate Numbered(p: seq<Block>) {
    forall i :: 0 <= i < |p| ==> p[i].number == i
  }

  predicate LinkAt(p: seq<Block>, i: nat)
    requires 0 < i < |p|
  {
    p[i].parent == p[i - 1].hash
  }

  predicate Linked(p: seq<Block>) {
    forall i :: 0 < i < |p| ==> LinkAt(p, i)
  }

  predicate UnclesNew(m: map<Hash, Uncle>, b: Block) {
    && (forall i :: 0 <= i < |b.uncles| ==> b.uncles[i].hash !in m)
    && (forall i, j :: 0 <= i < j < |b.uncles| ==> b.uncles[i].hash != b.uncles[j].hash)
  }

  function UncleMap(p: seq<Block>): map<Hash, Uncle> {
    if p == [] then map[] else PutUncles(UncleMap(p[..|p| - 1]), p[|p| - 1].uncles)
  }

  /** No uncle is embedded twice. */
  predicate UnclesOk(p: seq<Block>) {
    p == [] || (UnclesOk(p[..|p| - 1]) && UnclesNew(UncleMap(p[..|p| - 1]), p[|p| - 1]))
  }

  predicate ChainOk(p: seq<Block>) {
    Numbered(p) && LedgerOk(p) && UnclesOk(p)
  }

  function HashIndex(p: seq<Block>): map<nat, Hash> {
    map i | 0 <= i < |p| :: p[i].hash
  }

  function NumberIndex(p: seq<Block>): map<Hash, nat> {
    if p == [] then map[] else NumberIndex(p[..|p| - 1])[p[|p| - 1].hash := p[|p| - 1].number]
  }

  /** The hash index knows the hashes of the chain and no others. */
  lemma {:induction false} NumberIndexKeys(p: seq<Block>, h: Hash)
    ensures h in NumberIndex(p) <==> exists i :: 0 <= i < |p| && p[i].hash == h
  {
    if p != [] {
      var q := p[..|p| - 1];
      NumberIndexKeys(q, h);
      if h in NumberIndex(q) {
        var i :| 0 <= i < |q| && q[i].hash == h;
        assert p[i].hash == h;
      }
      if i :| 0 <= i < |p| && p[i].hash == h {
        if i < |q| { assert q[i].hash == h; }
      }
    }
  }

  predicate Stored(blocks: map<Hash, Block>, p: seq<Block>) {
    forall i :: 0 <= i < |p| ==> p[i].hash in blocks && blocks[p[i].hash] == p[i]
  }

  /** The columns hold exactly what replaying the chain p gives. */
  predicate Agrees(c: Columns, p: seq<Block>) {
    && ChainOk(p)
    && Stored(c.blocks, p)
    && c.hashOf == HashIndex(p)
    && c.numberOf == NumberIndex(p)
    && c.txInfo == InfoMap(Replay(p))
    && c.uncles == UncleMap(p)
    && c.cells == CellMap(Replay(p))
  }

  // ---------------------------------------------------------------- attaching

  function Attach(c: Columns, b: Block): Columns {
    AttachIndex(c, b).(cells := AttachTxs(c.cells, b, |b.txs|))
  }

  lemma {:induction false} PutInfosIsInfoMap(s: State, b: Block, k: nat)
    requires k <= |b.txs|
    ensures PutInfos(InfoMap(s), b, k) == InfoMap(ApplyTxs(s, b, k))
  {
    if k > 0 {
      PutInfosIsInfoMap(s, b, k - 1);
      var s' := ApplyTxs(s, b, k - 1);
      var r := RecAt(b, k - 1);
      assert InfoMap(ApplyTx(s', r)) == InfoMap(s')[r.tx.hash := InfoAt(b, k - 1)];
    }
  }

  lemma {:induction false} IndexStep(p: seq<Block>, b: Block)
    requires Numbered(p + [b])
    ensures Numbered(p)
    ensures HashIndex(p + [b]) == HashIndex(p)[b.number := b.hash]
    ensures NumberIndex(p + [b]) == NumberIndex(p)[b.hash := b.number]
  {
    var q := p + [b];
    assert forall i :: 0 <= i < |p| ==> p[i] == q[i];
    assert q[|p|] == b;
    assert q[..|q| - 1] == p;
  }

  lemma {:induction false} ChainStep(p: seq<Block>, b: Block)
    ensures ChainOk(p + [b]) <==>
            Numbered(p + [b]) && ChainOk(p) && TxsOk(Replay(p), b, |b.txs|) && UnclesNew(UncleMap(p), b)
    ensures UncleMap(p + [b]) == PutUncles(UncleMap(p), b.uncles)
  {
    assert (p + [b])[..|p + [b]| - 1] == p;
    ReplayStep(p, b);
    if Numbered(p + [b]) { IndexStep(p, b); }
  }

  /** Attaching a valid next block leads from the columns of a chain to those of the longer chain. */
  lemma {:induction false} AttachAgrees(c: Columns, p: seq<Block>, b: Block)
    requires Agrees(c, p) && ChainOk(p + [b]) && b.number > 0
    requires b.hash in c.blocks && c.blocks[b.hash] == b
    ensures Agrees(Attach(c, b), p + [b])
  {
    ChainStep(p, b);
    IndexStep(p, b);
    ReplayStep(p, b);
    ReplayOk(p);
    PutInfosIsInfoMap(Replay(p), b, |b.txs|);
    AttachRefines(Replay(p), b, |b.txs|);
  }

  // ---------------------------------------------------------------- rolling back

  function Detach(c: Columns, b: Block): Columns {
    var d := DetachIndex(c, b);
    d.(cells := DetachTxs(d, c.cells, b, 0))
  }

  /** Detaching a list of blocks, first to last. */
  function DetachAll(c: Columns, ds: seq<Block>): Columns {
    if ds == [] then c else Detach(DetachAll(c, ds[..|ds| - 1]), ds[|ds| - 1])
  }

  function Heights(ds: seq<Block>): set<nat> {
    set b | b in ds :: b.number
  }

  function BlockHashes(ds: seq<Block>): set<Hash> {
    set b | b in ds :: b.hash
  }

  function AllUncles(ds: seq<Block>): set<Hash> {
    set b, h | b in ds && h in UncleHashes(b) :: h
  }

  /** The columns of the chain p once the blocks ds, in whatever order, are taken out of it. */
  predicate AgreesWithout(c: Columns, p: seq<Block>, ds: seq<Block>) {
    && ChainOk(p)
    && Stored(c.blocks, p)
    && c.hashOf == HashIndex(p) - Heights(ds)
    && c.numberOf == NumberIndex(p) - BlockHashes(ds)
    && c.txInfo == InfoMap(Remove(Replay(p), ds))
    && c.uncles == UncleMap(p) - AllUncles(ds)
    && c.cells == CellMap(Remove(Replay(p), ds))
  }

  lemma {:induction false} MinusTwice<K, V>(m: map<K, V>, x: set<K>, y: set<K>)
    ensures m - (x + y) == m - x - y
  {
  }

  lemma {:induction false} RemoveSnoc(s: State, ds: seq<Block>, b: Block)
    ensures Remove(s, ds + [b]) == Remove(Remove(s, ds), [b])
    ensures Heights(ds + [b]) == Heights(ds) + {b.number}
    ensures BlockHashes(ds + [b]) == BlockHashes(ds) + {b.hash}
    ensures AllUncles(ds + [b]) == AllUncles(ds) + UncleHashes(b)
  {
    assert HashesOf(ds + [b]) == HashesOf(ds) + HashesOf([b]);
    assert SpendsOf(ds + [b]) == SpendsOf(ds) + SpendsOf([b]);
    MinusTwice(s.txs, HashesOf(ds), HashesOf([b]));
  }

  lemma {:induction false} StoredBacks(blocks: map<Hash, Block>, p: seq<Block>)
    requires Stored(blocks, p) && LedgerOk(p)
    ensures Backed(Replay(p), blocks)
  {
    if p != [] {
      var q, b := p[..|p| - 1], p[|p| - 1];
      assert Stored(blocks, q) by {
        assert forall i :: 0 <= i < |q| ==> q[i] == p[i];
      }
      StoredBacks(blocks, q);
      ApplyBacked(Replay(q), blocks, b, |b.txs|);
    }
  }

  lemma {:induction false} ApplyBacked(s: State, blocks: map<Hash, Block>, b: Block, k: nat)
    requires k <= |b.txs| && Backed(s, blocks) && b.hash in blocks && blocks[b.hash] == b
    ensures Backed(ApplyTxs(s, b, k), blocks)
  {
    if k > 0 { ApplyBacked(s, blocks, b, k - 1); }
  }

  /** A block of the chain that is not taken out yet still has all its traces in the state. */
  lemma {:induction false} OthersKeep(p: seq<Block>, ds: seq<Block>, i: nat)
    requires ChainOk(p) && i < |p| && p[i] !in ds && (forall b :: b in ds ==> b in p)
    ensures TxHashes(p[i]) !! HashesOf(ds) && BlockSpends(p[i]) !! SpendsOf(ds)
  {
    forall b | b in ds
      ensures TxHashes(p[i]) !! TxHashes(b) && BlockSpends(p[i]) !! BlockSpends(b)
    {
      var j :| 0 <= j < |p| && p[j] == b;
      if i < j { BlocksDisjoint(p, i, j); } else { BlocksDisjoint(p, j, i); }
    }
  }

  lemma {:induction false} SpendsDistinctIn(p: seq<Block>, i: nat)
    requires LedgerOk(p) && i < |p|
    ensures forall x :: 0 <= x < |p[i].txs| ==> NoDup(Spends(RecAt(p[i], x)))
    ensures forall x, y :: 0 <= x < y < |p[i].txs| ==> Elems(Spends(RecAt(p[i], x))) !! Elems(Spends(RecAt(p[i], y)))
  {
    PrefixStep(p, i);
    var s, b := Replay(p[..i]), p[i];
    forall x | 0 <= x < |b.txs| ensures NoDup(Spends(RecAt(b, x))) {
      SpendsNoDup(s, b, |b.txs|, x);
    }
    forall x, y | 0 <= x < y < |b.txs| ensures Elems(Spends(RecAt(b, x))) !! Elems(Spends(RecAt(b, y))) {
      SpendsDistinct(s, b, |b.txs|, x, y);
    }
  }

  lemma {:induction false} CanDetachNext(p: seq<Block>, ds: seq<Block>, i: nat)
    requires ChainOk(p) && 0 < i < |p| && p[i] !in ds && (forall b :: b in ds ==> b in p)
    ensures CanDetach(Remove(Replay(p), ds), p[i])
  {
    ReplayOk(p);
    ReplayGrows(p, i);
    OthersKeep(p, ds, i);
    SpendsDistinctIn(p, i);
  }

  lemma {:induction false} InfoMapMinus(s: State, b: Block)
    ensures InfoMap(Remove(s, [b])) == InfoMap(s) - TxHashes(b)
  {
    assert HashesOf([b]) == TxHashes(b);
  }

  lemma {:induction false} DetachStep(c: Columns, p: seq<Block>, ds: seq<Block>, i: nat)
    requires AgreesWithout(c, p, ds) && 0 < i < |p| && p[i] !in ds && (forall b :: b in ds ==> b in p)
    ensures AgreesWithout(Detach(c, p[i]), p, ds + [p[i]])
  {
    var b, s := p[i], Remove(Replay(p), ds);
    var d := DetachIndex(c, b);
    RemoveSnoc(Replay(p), ds, b);
    MinusTwice(HashIndex(p), Heights(ds), {b.number});
    MinusTwice(NumberIndex(p), BlockHashes(ds), {b.hash});
    MinusTwice(UncleMap(p), AllUncles(ds), UncleHashes(b));
    InfoMapMinus(s, b);
    assert d.cells == CellMap(s) && d.txInfo == InfoMap(Remove(s, [b]));
    DetachCells(c, p, ds, i);
  }

  lemma {:induction false} DetachCells(c: Columns, p: seq<Block>, ds: seq<Block>, i: nat)
    requires AgreesWithout(c, p, ds) && 0 < i < |p| && p[i] !in ds && (forall b :: b in ds ==> b in p)
    ensures Detach(c, p[i]).cells == CellMap(Remove(Remove(Replay(p), ds), [p[i]]))
  {
    var b, s := p[i], Remove(Replay(p), ds);
    StoredBacks(c.blocks, p);
    CanDetachNext(p, ds, i);
    UndoneIsRemove(s, b);
    InfoMapMinus(s, b);
    DetachRefines(s, DetachIndex(c, b), b);
  }

  lemma {:induction false} NothingDetached(c: Columns, p: seq<Block>)
    requires Agrees(c, p)
    ensures AgreesWithout(c, p, [])
  {
    hide ChainOk, Stored, Replay, NumberIndex, UncleMap, InfoMap, CellMap, Remove;
    assert Heights([]) == {} && BlockHashes([]) == {} && AllUncles([]) == {};
    RemoveNone(Replay(p));
  }

  lemma {:induction false} DetachSequence(c: Columns, p: seq<Block>, ds: seq<Block>)
    requires Agrees(c, p) && NoDup(ds) && (forall b :: b in ds ==> b in p && b.number > 0)
    ensures AgreesWithout(DetachAll(c, ds), p, ds)
  {
    if ds == [] {
      NothingDetached(c, p);
    } else {
      var es, b := ds[..|ds| - 1], ds[|ds| - 1];
      assert ds == es + [b];
      assert forall x :: x in es ==> x in ds;
      DetachSequence(c, p, es);
      assert b in ds;
      var i :| 0 <= i < |p| && p[i] == b;
      DetachStep(DetachAll(c, es), p, es, i);
    }
  }

  lemma {:induction false} ChainPrefix(p: seq<Block>, k: nat)
    requires ChainOk(p) && k <= |p|
    ensures ChainOk(p[..k])
  {
    if k < |p| {
      var q := p[..|p| - 1];
      assert p == q + [p[|p| - 1]];
      ChainStep(q, p[|p| - 1]);
      ChainPrefix(q, k);
      assert q[..k] == p[..k];
    } else {
      assert p[..k] == p;
    }
  }

  lemma {:induction false} PutUnclesKeys(m: map<Hash, Uncle>, us: seq<Uncle>)
    ensures PutUncles(m, us).Keys == m.Keys + set i | 0 <= i < |us| :: us[i].hash
    ensures forall h :: h in m && (forall i :: 0 <= i < |us| ==> us[i].hash != h) ==> PutUncles(m, us)[h] == m[h]
  {
    if us != [] {
      var vs, u := us[..|us| - 1], us[|us| - 1];
      PutUnclesKeys(m, vs);
      assert us == vs + [u];
      assert (set i | 0 <= i < |us| :: us[i].hash) == (set i | 0 <= i < |vs| :: vs[i].hash) + {us[|us| - 1].hash};
    }
  }

  lemma {:induction false} UndoUncles(m: map<Hash, Uncle>, b: Block)
    requires UnclesNew(m, b)
    ensures PutUncles(m, b.uncles) - UncleHashes(b) == m
  {
    PutUnclesKeys(m, b.uncles);
  }

  lemma {:induction false} UnclesStep(p: seq<Block>, b: Block)
    ensures UnclesOk(p + [b]) <==> UnclesOk(p) && UnclesNew(UncleMap(p), b)
    ensures UncleMap(p + [b]) == PutUncles(UncleMap(p), b.uncles)
  {
    assert (p + [b])[..|p + [b]| - 1] == p;
  }

  lemma {:induction false} UnclesPrefix(p: seq<Block>, k: nat)
    requires UnclesOk(p) && k <= |p|
    ensures UnclesOk(p[..k])
  {
    if k < |p| {
      UnclesPrefix(p[..|p| - 1], k);
      assert p[..|p| - 1][..k] == p[..k];
    } else {
      assert p[..k] == p;
    }
  }

  lemma {:induction false} AllUnclesCons(b: Block, ds: seq<Block>)
    ensures AllUncles([b] + ds) == AllUncles(ds) + UncleHashes(b)
  {
  }

  lemma {:induction false} DropUncles(p: seq<Block>, k: nat)
    requires UnclesOk(p) && k <= |p|
    ensures UncleMap(p) - AllUncles(p[k..]) == UncleMap(p[..k])
    decreases |p| - k
  {
    hide UnclesOk, UncleMap, UnclesNew, UncleHashes;
    if k == |p| {
      assert p[..k] == p;
      assert AllUncles([]) == {};
    } else {
      DropUncles(p, k + 1);
      assert p[k..] == [p[k]] + p[k + 1..];
      AllUnclesCons(p[k], p[k + 1..]);
      MinusTwice(UncleMap(p), AllUncles(p[k + 1..]), UncleHashes(p[k]));
      UnclesPrefix(p, k + 1);
      assert p[..k + 1] == p[..k] + [p[k]];
      UnclesStep(p[..k], p[k]);
      UndoUncles(UncleMap(p[..k]), p[k]);
    }
  }

  lemma {:induction false} DropHeights(p: seq<Block>, k: nat)
    requires Numbered(p) && k <= |p|
    ensures HashIndex(p) - Heights(p[k..]) == HashIndex(p[..k])
  {
    forall i | 0 <= i < |p| ensures i in Heights(p[k..]) <==> k <= i {
      if k <= i { assert p[k..][i - k] == p[i]; }
    }
  }

  lemma {:induction false} LastNumber(blocks: map<Hash, Block>, p: seq<Block>, k: nat)
    requires Numbered(p) && Stored(blocks, p) && k < |p|
    ensures NumberIndex(p[..k + 1]) - {p[k].hash} == NumberIndex(p[..k])
  {
    assert p[..k + 1][..|p[..k + 1]| - 1] == p[..k];
    NumberIndexKeys(p[..k], p[k].hash);
  }

  lemma {:induction false} DropNumbers(blocks: map<Hash, Block>, p: seq<Block>, k: nat)
    requires Numbered(p) && Stored(blocks, p) && k <= |p|
    ensures NumberIndex(p) - BlockHashes(p[k..]) == NumberIndex(p[..k])
    decreases |p| - k
  {
    hide NumberIndex, Numbered, Stored;
    if k == |p| {
      assert p[..k] == p;
    } else {
      DropNumbers(blocks, p, k + 1);
      assert p[k..] == [p[k]] + p[k + 1..];
      assert BlockHashes(p[k..]) == BlockHashes(p[k + 1..]) + {p[k].hash};
      MinusTwice(NumberIndex(p), BlockHashes(p[k + 1..]), {p[k].hash});
      LastNumber(blocks, p, k);
    }
  }

  /**
    Rolling back the blocks from height k on, listed in any order, restores every column of the
    chain below k: the cell set with its deleted entries, both directions of the height index,
    the transaction infos and the uncles.
   */
  lemma {:induction false} RollbackRestores(c: Columns, p: seq<Block>, k: nat, ds: seq<Block>)
    requires Agrees(c, p) && 0 < k <= |p|
    requires NoDup(ds) && Elems(ds) == Elems(p[k..])
    ensures Agrees(DetachAll(c, ds), p[..k])
  {
    forall b | b in ds ensures b in p && b.number > 0 {
      assert b in Elems(ds);
      var j :| 0 <= j < |p[k..]| && p[k..][j] == b;
      assert b == p[k + j];
    }
    DetachSequence(c, p, ds);
    RemoveSuffix(p, k, ds);
    ChainPrefix(p, k);
    DropHeights(p, k);
    DropNumbers(c.blocks, p, k);
    DropUncles(p, k);
    SameElems(ds, p[k..]);
  }

  lemma {:induction false} SameElems(ds: seq<Block>, es: seq<Block>)
    requires Elems(ds) == Elems(es)
    ensures Heights(ds) == Heights(es) && BlockHashes(ds) == BlockHashes(es) && AllUncles(ds) == AllUncles(es)
  {
    assert forall b :: b in ds <==> b in Elems(ds);
    assert forall b :: b in es <==> b in Elems(es);
  }
}
