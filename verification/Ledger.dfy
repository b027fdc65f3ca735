/**
  The reference meaning of the main chain: an unspent-output ledger. A state records every
  committed transaction and every spent out point, and a chain is replayed block by block.
  The cell set, which the node changes in place, is defined here from a state alone.
 */
module Ledger {
  import opened Types

  datatype Rec = Rec(tx: Tx, blockHash: Hash, index: nat, number: nat, epoch: nat)

  datatype State = State(txs: map<Hash, Rec>, spent: set<OutPoint>)

  const EMPTY: State := State(map[], {})

  function RecAt(b: Block, k: nat): Rec
    requires k < |b.txs|
  {
    Rec(b.txs[k], b.hash, k, b.number, b.epoch)
  }

  /** What a committed transaction spends: the genesis block and cellbases spend nothing. */
  function Spends(r: Rec): seq<OutPoint> {
    if r.number == 0 || IsCellbase(r.tx) then [] else InputPts(r.tx)
  }

  predicate NoDup<T(==)>(s: seq<T>) {
    forall i, j :: 0 <= i < j < |s| ==> s[i] != s[j]
  }

  function Elems<T>(s: seq<T>): set<T> {
    set x | x in s
  }

  predicate Created(s: State, op: OutPoint) {
    op.txHash in s.txs && op.index < |s.txs[op.txHash].tx.outputs|
  }

  predicate Unspent(s: State, op: OutPoint) {
    Created(s, op) && op !in s.spent
  }

  /** The rules of the ledger: a new hash, and every input a distinct unspent output. */
  predicate TxOk(s: State, r: Rec) {
    && r.tx.hash !in s.txs
    && r.tx.hash != ZERO_HASH
    && NoDup(Spends(r))
    && forall op :: op in Spends(r) ==> Unspent(s, op)
  }

  function ApplyTx(s: State, r: Rec): State {
    State(s.txs[r.tx.hash := r], s.spent + Elems(Spends(r)))
  }

  function ApplyTxs(s: State, b: Block, k: nat): State
    requires k <= |b.txs|
  {
    if k == 0 then s else ApplyTx(ApplyTxs(s, b, k - 1), RecAt(b, k - 1))
  }

  function ApplyBlock(s: State, b: Block): State {
    ApplyTxs(s, b, |b.txs|)
  }

  predicate TxsOk(s: State, b: Block, k: nat)
    requires k <= |b.txs|
  {
    k == 0 || (TxsOk(s, b, k - 1) && TxOk(ApplyTxs(s, b, k - 1), RecAt(b, k - 1)))
  }

  function Replay(p: seq<Block>): State {
    if p == [] then EMPTY else ApplyBlock(Replay(p[..|p| - 1]), p[|p| - 1])
  }

  /** Every transaction of the chain obeys the ledger rules at its place. */
  predicate LedgerOk(p: seq<Block>) {
    p == [] || (LedgerOk(p[..|p| - 1]) && TxsOk(Replay(p[..|p| - 1]), p[|p| - 1], |p[|p| - 1].txs|))
  }

  // ---------------------------------------------------------------- the cell set of a state

  predicate AllSpent(s: State, h: Hash)
    requires h in s.txs
  {
    |s.txs[h].tx.outputs| > 0 &&
    forall i: nat :: i < |s.txs[h].tx.outputs| ==> OutPoint(h, i) in s.spent
  }

  function MetaOf(s: State, h: Hash): Meta
    requires h in s.txs
  {
    var r := s.txs[h];
    Meta(r.number, r.epoch, r.blockHash, IsCellbase(r.tx),
         seq(|r.tx.outputs|, i requires 0 <= i < |r.tx.outputs| => OutPoint(h, i) in s.spent))
  }

  /** One entry per committed transaction that still has an unspent output (or never had any). */
  function CellMap(s: State): map<Hash, Meta> {
    map h | h in s.txs && !AllSpent(s, h) :: MetaOf(s, h)
  }

  /** Reachable states: every spent out point was created, and the null hash is no transaction. */
  predicate StateOk(s: State) {
    && ZERO_HASH !in s.txs
    && (forall op :: op in s.spent ==> Created(s, op))
    && (forall h :: h in s.txs ==> s.txs[h].tx.hash == h)
  }

  lemma {:induction false} ApplyTxKeepsOk(s: State, r: Rec)
    requires StateOk(s) && TxOk(s, r)
    ensures StateOk(ApplyTx(s, r))
  {
  }

  lemma {:induction false} ApplyTxsKeepsOk(s: State, b: Block, k: nat)
    requires k <= |b.txs| && StateOk(s) && TxsOk(s, b, k)
    ensures StateOk(ApplyTxs(s, b, k))
  {
    if k > 0 {
      ApplyTxsKeepsOk(s, b, k - 1);
      ApplyTxKeepsOk(ApplyTxs(s, b, k - 1), RecAt(b, k - 1));
    }
  }

  lemma {:induction false} ReplayOk(p: seq<Block>)
    requires LedgerOk(p)
    ensures StateOk(Replay(p))
  {
    if p != [] {
      ReplayOk(p[..|p| - 1]);
      ApplyTxsKeepsOk(Replay(p[..|p| - 1]), p[|p| - 1], |p[|p| - 1].txs|);
    }
  }

  // ---------------------------------------------------------------- undoing blocks, in any order

  function HashesUpTo(b: Block, k: nat): set<Hash>
    requires k <= |b.txs|
  {
    set i | 0 <= i < k :: b.txs[i].hash
  }

  function TxHashes(b: Block): set<Hash> {
    HashesUpTo(b, |b.txs|)
  }

  function SpendsUpTo(b: Block, k: nat): set<OutPoint>
    requires k <= |b.txs|
  {
    set i, op | 0 <= i < k && op in Spends(RecAt(b, i)) :: op
  }

  function BlockSpends(b: Block): set<OutPoint> {
    SpendsUpTo(b, |b.txs|)
  }

  function HashesOf(ds: seq<Block>): set<Hash> {
    set b, h | b in ds && h in TxHashes(b) :: h
  }

  function SpendsOf(ds: seq<Block>): set<OutPoint> {
    set b, op | b in ds && op in BlockSpends(b) :: op
  }

  /** Forgetting a set of blocks, without looking at the order in which they were added. */
  function Remove(s: State, ds: seq<Block>): State {
    State(s.txs - HashesOf(ds), s.spent - SpendsOf(ds))
  }

  lemma {:induction false} ApplyTxsHashes(s: State, b: Block, k: nat)
    requires k <= |b.txs| && TxsOk(s, b, k)
    ensures ApplyTxs(s, b, k).txs.Keys == s.txs.Keys + HashesUpTo(b, k)
    ensures s.txs.Keys !! HashesUpTo(b, k)
    ensures forall h :: h in s.txs ==> ApplyTxs(s, b, k).txs[h] == s.txs[h]
    ensures forall i :: 0 <= i < k ==> ApplyTxs(s, b, k).txs[b.txs[i].hash] == RecAt(b, i)
  {
    if k > 0 {
      ApplyTxsHashes(s, b, k - 1);
      assert HashesUpTo(b, k) == HashesUpTo(b, k - 1) + {b.txs[k - 1].hash};
      forall i | 0 <= i < k - 1
        ensures b.txs[i].hash in HashesUpTo(b, k - 1)
      {
      }
    }
  }

  lemma {:induction false} ApplyTxsSpends(s: State, b: Block, k: nat)
    requires k <= |b.txs| && TxsOk(s, b, k)
    ensures ApplyTxs(s, b, k).spent == s.spent + SpendsUpTo(b, k)
    ensures s.spent !! SpendsUpTo(b, k)
  {
    if k > 0 {
      ApplyTxsSpends(s, b, k - 1);
      assert SpendsUpTo(b, k) == SpendsUpTo(b, k - 1) + Elems(Spends(RecAt(b, k - 1)));
    }
  }

  /** Within a block no out point is spent twice. */
  lemma {:induction false} SpendsDistinct(s: State, b: Block, k: nat, i: nat, j: nat)
    requires k <= |b.txs| && TxsOk(s, b, k) && i < j < k
    ensures Elems(Spends(RecAt(b, i))) !! Elems(Spends(RecAt(b, j)))
  {
    if j == k - 1 {
      ApplyTxsSpends(s, b, j);
      assert Elems(Spends(RecAt(b, i))) <= SpendsUpTo(b, j);
    } else {
      SpendsDistinct(s, b, k - 1, i, j);
    }
  }

  lemma {:induction false} SpendsNoDup(s: State, b: Block, k: nat, i: nat)
    requires k <= |b.txs| && TxsOk(s, b, k) && i < k
    ensures NoDup(Spends(RecAt(b, i)))
  {
    if i < k - 1 { SpendsNoDup(s, b, k - 1, i); }
  }

  lemma {:induction false} ReplayStep(p: seq<Block>, b: Block)
    ensures Replay(p + [b]) == ApplyBlock(Replay(p), b)
    ensures LedgerOk(p + [b]) <==> LedgerOk(p) && TxsOk(Replay(p), b, |b.txs|)
  {
    assert (p + [b])[..|p + [b]| - 1] == p;
  }

  lemma {:induction false} LedgerPrefix(p: seq<Block>, k: nat)
    requires k <= |p| && LedgerOk(p)
    ensures LedgerOk(p[..k])
  {
    if k < |p| {
      LedgerPrefix(p[..|p| - 1], k);
      assert p[..|p| - 1][..k] == p[..k];
    } else {
      assert p[..k] == p;
    }
  }

  lemma {:induction false} PrefixStep(p: seq<Block>, k: nat)
    requires LedgerOk(p) && k < |p|
    ensures LedgerOk(p[..k]) && TxsOk(Replay(p[..k]), p[k], |p[k].txs|)
    ensures Replay(p[..k + 1]) == ApplyBlock(Replay(p[..k]), p[k])
  {
    LedgerPrefix(p, k + 1);
    assert p[..k + 1] == p[..k] + [p[k]];
    ReplayStep(p[..k], p[k]);
  }

  /** Each block adds exactly its own hashes and out points to what the shorter chain had. */
  lemma {:induction false} ReplayGrows(p: seq<Block>, i: nat)
    requires LedgerOk(p) && i < |p|
    ensures TxHashes(p[i]) <= Replay(p).txs.Keys && BlockSpends(p[i]) <= Replay(p).spent
    ensures forall k :: 0 <= k < |p[i].txs| ==> Replay(p).txs[p[i].txs[k].hash] == RecAt(p[i], k)
    decreases |p|
  {
    var q, b := p[..|p| - 1], p[|p| - 1];
    assert p == q + [b];
    ReplayStep(q, b);
    ApplyTxsHashes(Replay(q), b, |b.txs|);
    ApplyTxsSpends(Replay(q), b, |b.txs|);
    if i < |q| {
      ReplayGrows(q, i);
      assert q[i] == p[i];
      forall k | 0 <= k < |p[i].txs|
        ensures Replay(p).txs[p[i].txs[k].hash] == RecAt(p[i], k)
      {
        assert p[i].txs[k].hash in TxHashes(p[i]);
      }
    }
  }

  /** Two blocks of a chain share no transaction and spend no common out point. */
  lemma {:induction false} BlocksDisjoint(p: seq<Block>, i: nat, j: nat)
    requires LedgerOk(p) && i < j < |p|
    ensures TxHashes(p[i]) !! TxHashes(p[j]) && BlockSpends(p[i]) !! BlockSpends(p[j])
  {
    PrefixStep(p, j);
    ReplayGrows(p[..j], i);
    ApplyTxsHashes(Replay(p[..j]), p[j], |p[j].txs|);
    ApplyTxsSpends(Replay(p[..j]), p[j], |p[j].txs|);
  }

  lemma {:induction false} UndoBlock(s: State, b: Block)
    requires TxsOk(s, b, |b.txs|)
    ensures ApplyBlock(s, b).txs - TxHashes(b) == s.txs
    ensures ApplyBlock(s, b).spent - BlockSpends(b) == s.spent
  {
    ApplyTxsHashes(s, b, |b.txs|);
    ApplyTxsSpends(s, b, |b.txs|);
  }

  lemma {:induction false} RemoveByElems(s: State, ds: seq<Block>, es: seq<Block>)
    requires Elems(ds) == Elems(es)
    ensures Remove(s, ds) == Remove(s, es)
  {
    assert forall b :: b in ds <==> b in Elems(ds);
    assert forall b :: b in es <==> b in Elems(es);
    assert HashesOf(ds) == HashesOf(es);
    assert SpendsOf(ds) == SpendsOf(es);
  }

  lemma {:induction false} RemoveNone(s: State)
    ensures Remove(s, []) == s
  {
    assert HashesOf([]) == {} && SpendsOf([]) == {};
    assert s.txs - {} == s.txs;
  }

  lemma {:induction false} RemoveCons(s: State, b: Block, ds: seq<Block>)
    ensures Remove(s, [b] + ds) == State(Remove(s, ds).txs - TxHashes(b), Remove(s, ds).spent - BlockSpends(b))
  {
    assert HashesOf([b] + ds) == TxHashes(b) + HashesOf(ds);
    assert SpendsOf([b] + ds) == BlockSpends(b) + SpendsOf(ds);
    assert s.txs - (TxHashes(b) + HashesOf(ds)) == s.txs - HashesOf(ds) - TxHashes(b);
  }

  /** Forgetting the blocks above height k, listed in any order, is replaying the blocks below. */
  lemma {:induction false} RemoveSuffix(p: seq<Block>, k: nat, ds: seq<Block>)
    requires LedgerOk(p) && k <= |p|
    requires Elems(ds) == Elems(p[k..])
    ensures Remove(Replay(p), ds) == Replay(p[..k])
    decreases |p| - k
  {
    hide LedgerOk, Replay, TxsOk, ApplyBlock, TxHashes, BlockSpends, Remove;
    RemoveByElems(Replay(p), ds, p[k..]);
    if k == |p| {
      assert p[..k] == p && p[k..] == [];
      RemoveNone(Replay(p));
    } else {
      RemoveSuffix(p, k + 1, p[k + 1..]);
      assert p[k..] == [p[k]] + p[k + 1..];
      RemoveCons(Replay(p), p[k], p[k + 1..]);
      PrefixStep(p, k);
      UndoBlock(Replay(p[..k]), p[k]);
    }
  }
}
