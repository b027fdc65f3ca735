/**
  What block verification checks, and what a block that passes it can be relied on for. The
  checks look at one block and at the columns of its parent chain; the result is that the whole
  chain stays within the rules of the ledger, in particular that no transaction hash is ever
  committed twice.
 */
module Admission {
  import opened Types
  import opened Ledger
  import opened Store
  import opened CellSet
  import opened MainChain

  /** `CellbaseVerifier` and the transaction part of `DuplicateVerifier`. */
  predicate NonContextualOk(b: Block) {
    && |b.txs| > 0
    && IsCellbase(b.txs[0])
    && b.txs[0].inputs[0].since == b.number
    && (forall i :: 0 < i < |b.txs| ==> !IsCellbase(b.txs[i]))
    && (forall i, j :: 0 <= i < j < |b.txs| ==> b.txs[i].hash != b.txs[j].hash)
  }

  /** `EmptyVerifier`: every transaction has an input. */
  predicate InputsPresent(b: Block) {
    forall i :: 0 <= i < |b.txs| ==> |b.txs[i].inputs| > 0
  }

  /** `BlockCellProvider::new`: an input names no transaction at or after its own position. */
  predicate Ordered(b: Block) {
    forall i :: 0 <= i < |b.txs| ==> OrderedAt(b, i)
  }

  predicate OrderedAt(b: Block, i: nat)
    requires i < |b.txs|
  {
    forall j, op :: i <= j < |b.txs| && op in InputPts(b.txs[i]) ==> b.txs[j].hash != op.txHash
  }

  predicate CreatedInBlock(b: Block, op: OutPoint) {
    exists j :: 0 <= j < |b.txs| && b.txs[j].hash == op.txHash && op.index < |b.txs[j].outputs|
  }

  /** `OverlayCellProvider::cell` is live: an output of the block itself, or a live cell of the store. */
  predicate OverlayLive(c: Columns, b: Block, op: OutPoint) {
    CreatedInBlock(b, op) || CellAt(c, op).Live?
  }

  /** `resolve_transaction` on transaction i, after the transactions before it were resolved. */
  predicate ResolvesTx(c: Columns, b: Block, i: nat)
    requires i < |b.txs|
  {
    IsCellbase(b.txs[i]) ||
    (&& NoDup(InputPts(b.txs[i]))
     && (forall op :: op in InputPts(b.txs[i]) ==> OverlayLive(c, b, op))
     && (forall j, op :: 0 <= j < i && !IsCellbase(b.txs[j]) && op in InputPts(b.txs[i]) ==> op !in InputPts(b.txs[j])))
  }

  predicate Resolves(c: Columns, b: Block) {
    forall i :: 0 <= i < |b.txs| ==> ResolvesTx(c, b, i)
  }

  /** The checks on transactions that the ledger argument rests on. */
  predicate TxChecks(c: Columns, b: Block) {
    NonContextualOk(b) && InputsPresent(b) && Ordered(b) && Resolves(c, b)
  }

  predicate SameRaw(t: Tx, u: Tx) {
    t.inputs == u.inputs && t.outputs == u.outputs
  }

  /** No hash collision among the transactions of these blocks, and none hashes to zero. */
  ghost predicate CollisionFree(bs: set<Block>) {
    && (forall b, i :: b in bs && 0 <= i < |b.txs| ==> b.txs[i].hash != ZERO_HASH)
    && (forall b, i, b', j ::
          (b in bs && 0 <= i < |b.txs| && b' in bs && 0 <= j < |b'.txs| && b.txs[i].hash == b'.txs[j].hash)
          ==> SameRaw(b.txs[i], b'.txs[j]))
  }

  /** Blocks of a chain after genesis passed the block-local checks. */
  predicate BlocksChecked(p: seq<Block>) {
    forall i :: 0 < i < |p| ==> NonContextualOk(p[i]) && InputsPresent(p[i])
  }

  /** The block commits no transaction of the genesis block again. */
  predicate NoGenesisReplay(g: Block, b: Block) {
    forall i, j :: 0 <= i < |b.txs| && 0 <= j < |g.txs| ==> b.txs[i].hash != g.txs[j].hash
  }

  /** No block of the chain commits a transaction of its genesis block again. */
  predicate ReplayFree(p: seq<Block>) {
    forall i :: 0 < i < |p| ==> NoGenesisReplay(p[0], p[i])
  }

  // ---------------------------------------------------------------- records of a chain

  lemma {:induction false} ApplyRecs(s: State, b: Block, k: nat, h: Hash)
    requires k <= |b.txs| && h in ApplyTxs(s, b, k).txs
    ensures (h in s.txs && ApplyTxs(s, b, k).txs[h] == s.txs[h]) ||
            (exists i :: 0 <= i < k && ApplyTxs(s, b, k).txs[h] == RecAt(b, i))
  {
    if k > 0 && h != b.txs[k - 1].hash { ApplyRecs(s, b, k - 1, h); }
  }

  /** Every recorded transaction sits in the chain at the height and position recorded for it. */
  lemma {:induction false} RecsOfChain(p: seq<Block>, h: Hash)
    requires Numbered(p) && h in Replay(p).txs
    ensures var r := Replay(p).txs[h];
            r.number < |p| && r.index < |p[r.number].txs| && r == RecAt(p[r.number], r.index)
  {
    var q, b := p[..|p| - 1], p[|p| - 1];
    ApplyRecs(Replay(q), b, |b.txs|, h);
    if h in Replay(q).txs && Replay(p).txs[h] == Replay(q).txs[h] {
      RecsOfChain(q, h);
    }
  }

  lemma {:induction false} SpentByRecord(p: seq<Block>, h: Hash)
    requires ChainOk(p) && h in Replay(p).txs
    ensures forall op :: op in Spends(Replay(p).txs[h]) ==> op in Replay(p).spent
  {
    RecsOfChain(p, h);
    var r := Replay(p).txs[h];
    ReplayGrows(p, r.number);
    assert Elems(Spends(r)) <= BlockSpends(p[r.number]);
    assert forall op :: op in Spends(r) ==> op in Elems(Spends(r));
  }

  /** The first input of a committed transaction is spent, unless it is a cellbase input. */
  lemma {:induction false} FirstInputSpent(p: seq<Block>, h: Hash)
    requires ChainOk(p) && h in Replay(p).txs
    requires Replay(p).txs[h].number > 0 && |Replay(p).txs[h].tx.inputs| > 0
    ensures var r := Replay(p).txs[h];
            if IsCellbase(r.tx) then r.tx.inputs[0].previous == NULL_OUT_POINT
            else r.tx.inputs[0].previous in Replay(p).spent && r.tx.inputs[0].previous.txHash in Replay(p).txs
  {
    var r := Replay(p).txs[h];
    SpentByRecord(p, h);
    ReplayOk(p);
    assert InputPts(r.tx)[0] == r.tx.inputs[0].previous;
  }

  /** A cellbase is never committed again: its input carries the height of its block. */
  lemma {:induction false} CellbaseFresh(p: seq<Block>, b: Block, h: Hash)
    requires ChainOk(p) && BlocksChecked(p) && b.number == |p| && NonContextualOk(b)
    requires h in Replay(p).txs && Replay(p).txs[h].number > 0
    ensures !SameRaw(b.txs[0], Replay(p).txs[h].tx)
  {
    RecsOfChain(p, h);
    ReplayOk(p);
    if |Replay(p).txs[h].tx.inputs| > 0 { FirstInputSpent(p, h); }
  }

  // ---------------------------------------------------------------- the checks imply the rules

  /** The verified block b can follow the chain p whose columns are c. */
  ghost predicate Follows(c: Columns, p: seq<Block>, b: Block) {
    && Agrees(c, p) && p != [] && BlocksChecked(p)
    && b.number == |p|
    && TxChecks(c, b)
    && CollisionFree(Elems(p) + {b})
    && NoGenesisReplay(p[0], b)
  }

  lemma {:induction false} LiveIsUnspent(c: Columns, p: seq<Block>, op: OutPoint)
    requires Agrees(c, p)
    ensures CellAt(c, op).Live? <==> Unspent(Replay(p), op)
  {
    StoredBacks(c.blocks, p);
    LiveExactly(Replay(p), c, op);
  }

  lemma {:induction false} RecordCollides(p: seq<Block>, b: Block, i: nat)
    requires ChainOk(p) && p != [] && CollisionFree(Elems(p) + {b}) && NoGenesisReplay(p[0], b)
    requires i < |b.txs| && b.txs[i].hash in Replay(p).txs
    ensures SameRaw(b.txs[i], Replay(p).txs[b.txs[i].hash].tx)
    ensures Replay(p).txs[b.txs[i].hash].number > 0
  {
    var h := b.txs[i].hash;
    RecsOfChain(p, h);
    ReplayOk(p);
    var r := Replay(p).txs[h];
    assert p[r.number] in Elems(p) + {b} && b in Elems(p) + {b};
    assert p[r.number].txs[r.index].hash == h;
  }

  lemma {:induction false} InBlockEarlier(b: Block, k: nat, op: OutPoint)
    requires Ordered(b) && k < |b.txs| && op in InputPts(b.txs[k]) && CreatedInBlock(b, op)
    ensures op.txHash in HashesUpTo(b, k)
    ensures exists j :: 0 <= j < k && b.txs[j].hash == op.txHash && op.index < |b.txs[j].outputs|
  {
    assert OrderedAt(b, k);
  }

  lemma {:induction false} NullNotLive(c: Columns, p: seq<Block>, b: Block)
    requires Agrees(c, p) && CollisionFree(Elems(p) + {b})
    ensures !OverlayLive(c, b, NULL_OUT_POINT)
  {
    LiveIsUnspent(c, p, NULL_OUT_POINT);
    ReplayOk(p);
    assert b in Elems(p) + {b};
  }

  lemma {:induction false} LiveInputNotOld(c: Columns, p: seq<Block>, b: Block, k: nat, h: Hash)
    requires Follows(c, p, b) && 0 < k < |b.txs| && TxsOk(Replay(p), b, k)
    requires h in Replay(p).txs && Replay(p).txs[h].number > 0
    ensures !SameRaw(b.txs[k], Replay(p).txs[h].tx)
  {
    var s, tx, r := Replay(p), b.txs[k], Replay(p).txs[h];
    if SameRaw(tx, r.tx) {
      var op := tx.inputs[0].previous;
      assert op == InputPts(tx)[0];
      assert ResolvesTx(c, b, k);
      assert OverlayLive(c, b, op);
      FirstInputSpent(p, h);
      NullNotLive(c, p, b);
      LiveIsUnspent(c, p, op);
      ApplyTxsHashes(s, b, k);
      if CreatedInBlock(b, op) { InBlockEarlier(b, k, op); }
      assert false;
    }
  }

  /** A transaction whose hash is already on the chain would have an input that is already spent. */
  lemma {:induction false} HashFresh(c: Columns, p: seq<Block>, b: Block, k: nat)
    requires Follows(c, p, b) && k < |b.txs| && TxsOk(Replay(p), b, k)
    ensures b.txs[k].hash !in Replay(p).txs
  {
    if b.txs[k].hash in Replay(p).txs {
      RecordCollides(p, b, k);
      if k == 0 {
        CellbaseFresh(p, b, b.txs[k].hash);
      } else {
        LiveInputNotOld(c, p, b, k, b.txs[k].hash);
      }
      assert false;
    }
  }

  /** A resolved input is unspent at the place of its transaction, not only at the start of the block. */
  lemma {:induction false} InputUnspent(c: Columns, p: seq<Block>, b: Block, k: nat, op: OutPoint)
    requires Follows(c, p, b) && k < |b.txs| && TxsOk(Replay(p), b, k)
    requires op in Spends(RecAt(b, k))
    ensures Unspent(ApplyTxs(Replay(p), b, k), op)
  {
    var s := Replay(p);
    assert ResolvesTx(c, b, k);
    ReplayOk(p);
    LiveIsUnspent(c, p, op);
    ApplyTxsHashes(s, b, k);
    ApplyTxsSpends(s, b, k);
    NotSpentEarlier(c, b, k, op);
    if CreatedInBlock(b, op) {
      InBlockEarlier(b, k, op);
      var j :| 0 <= j < k && b.txs[j].hash == op.txHash && op.index < |b.txs[j].outputs|;
      assert b.txs[j].hash in HashesUpTo(b, k);
    }
  }

  lemma {:induction false} NotSpentEarlier(c: Columns, b: Block, k: nat, op: OutPoint)
    requires Resolves(c, b) && k < |b.txs| && op in Spends(RecAt(b, k))
    ensures op !in SpendsUpTo(b, k)
  {
    assert ResolvesTx(c, b, k);
  }

  lemma {:induction false} HashNewHere(c: Columns, p: seq<Block>, b: Block, k: nat)
    requires Follows(c, p, b) && k < |b.txs| && TxsOk(Replay(p), b, k)
    ensures b.txs[k].hash !in ApplyTxs(Replay(p), b, k).txs && b.txs[k].hash != ZERO_HASH
  {
    HashFresh(c, p, b, k);
    ApplyTxsHashes(Replay(p), b, k);
    assert b in Elems(p) + {b};
  }

  lemma {:induction false} ResolvedNoDup(c: Columns, p: seq<Block>, b: Block, k: nat)
    requires Follows(c, p, b) && k < |b.txs|
    ensures NoDup(Spends(RecAt(b, k)))
  {
    assert ResolvesTx(c, b, k);
  }

  /** Verified blocks obey the ledger: new hashes only, and no output spent twice. */
  lemma {:induction false} BlockObeysLedger(c: Columns, p: seq<Block>, b: Block, k: nat)
    requires Follows(c, p, b) && k <= |b.txs|
    ensures TxsOk(Replay(p), b, k)
  {
    hide Follows, Unspent, NoDup, Replay;
    if k > 0 {
      BlockObeysLedger(c, p, b, k - 1);
      HashNewHere(c, p, b, k - 1);
      ResolvedNoDup(c, p, b, k - 1);
      var s, ops := ApplyTxs(Replay(p), b, k - 1), Spends(RecAt(b, k - 1));
      forall op | op in ops ensures Unspent(s, op) {
        InputUnspent(c, p, b, k - 1, op);
      }
    }
  }

  // ---------------------------------------------------------------- the rules imply the checks

  /** Transaction i spends distinct outputs that are unspent once the transactions before it are applied. */
  predicate FitsAt(s: State, b: Block, i: nat)
    requires i < |b.txs|
  {
    IsCellbase(b.txs[i]) ||
    (NoDup(InputPts(b.txs[i])) && forall op :: op in InputPts(b.txs[i]) ==> Unspent(ApplyTxs(s, b, i), op))
  }

  predicate Fits(s: State, b: Block) {
    forall i :: 0 <= i < |b.txs| ==> FitsAt(s, b, i)
  }

  /** What the first k transactions leave, whether or not they obey the ledger. */
  lemma {:induction false} AppliedSpent(s: State, b: Block, k: nat)
    requires k <= |b.txs|
    ensures ApplyTxs(s, b, k).spent == s.spent + SpendsUpTo(b, k)
  {
    if k > 0 {
      AppliedSpent(s, b, k - 1);
      assert SpendsUpTo(b, k) == SpendsUpTo(b, k - 1) + Elems(Spends(RecAt(b, k - 1)));
    }
  }

  lemma {:induction false} AppliedTxs(s: State, b: Block, k: nat, h: Hash)
    requires k <= |b.txs|
    ensures h in ApplyTxs(s, b, k).txs <==> h in s.txs || h in HashesUpTo(b, k)
    ensures h in s.txs && h !in HashesUpTo(b, k) ==> ApplyTxs(s, b, k).txs[h] == s.txs[h]
  {
    if k > 0 {
      AppliedTxs(s, b, k - 1, h);
      assert HashesUpTo(b, k) == HashesUpTo(b, k - 1) + {b.txs[k - 1].hash};
    }
  }

  lemma {:induction false} AppliedOwn(s: State, b: Block, k: nat, j: nat)
    requires k <= |b.txs| && NonContextualOk(b) && j < k
    ensures b.txs[j].hash in ApplyTxs(s, b, k).txs && ApplyTxs(s, b, k).txs[b.txs[j].hash] == RecAt(b, j)
  {
    if j < k - 1 { AppliedOwn(s, b, k - 1, j); }
  }

  /** An unspent output is one of the block itself or live in the store, and no earlier transaction used it. */
  lemma {:induction false} FitsIsLive(c: Columns, p: seq<Block>, b: Block, i: nat, op: OutPoint)
    requires Agrees(c, p) && NonContextualOk(b) && i < |b.txs| && Unspent(ApplyTxs(Replay(p), b, i), op)
    ensures OverlayLive(c, b, op) && op !in SpendsUpTo(b, i)
  {
    hide Agrees, Replay, CellAt;
    AppliedSpent(Replay(p), b, i);
    AppliedTxs(Replay(p), b, i, op.txHash);
    LiveIsUnspent(c, p, op);
    if op.txHash in HashesUpTo(b, i) {
      var j :| 0 <= j < i && b.txs[j].hash == op.txHash;
      AppliedOwn(Replay(p), b, i, j);
    }
  }

  /** A block resolves if its transactions spend unspent outputs, each at its place. */
  lemma {:induction false} FitsResolves(c: Columns, p: seq<Block>, b: Block)
    requires Agrees(c, p) && p != [] && b.number == |p| && NonContextualOk(b)
    requires Fits(Replay(p), b)
    ensures Resolves(c, b)
  {
    hide Agrees, Replay, ApplyTxs, Unspent, OverlayLive;
    forall i | 0 <= i < |b.txs| ensures ResolvesTx(c, b, i) {
      assert FitsAt(Replay(p), b, i);
      if !IsCellbase(b.txs[i]) {
        forall op | op in InputPts(b.txs[i]) ensures OverlayLive(c, b, op) && op !in SpendsUpTo(b, i) {
          FitsIsLive(c, p, b, i, op);
        }
        forall j, op | 0 <= j < i && !IsCellbase(b.txs[j]) && op in InputPts(b.txs[i])
          ensures op !in InputPts(b.txs[j])
        {
          assert Spends(RecAt(b, j)) == InputPts(b.txs[j]);
        }
      }
    }
  }

  /** The other way round, for a block of new transactions. */
  lemma {:induction false} ResolvesFits(c: Columns, p: seq<Block>, b: Block, i: nat)
    requires Agrees(c, p) && p != [] && b.number == |p| && NonContextualOk(b) && Ordered(b) && Resolves(c, b)
    requires (forall j :: 0 <= j < |b.txs| ==> b.txs[j].hash !in Replay(p).txs) && i < |b.txs|
    ensures FitsAt(Replay(p), b, i)
  {
    hide Agrees, Replay, CellAt;
    var s := Replay(p);
    assert ResolvesTx(c, b, i);
    AppliedSpent(s, b, i);
    ReplayIsOk(c, p);
    if !IsCellbase(b.txs[i]) {
      forall op | op in InputPts(b.txs[i]) ensures Unspent(ApplyTxs(s, b, i), op) {
        LiveIsUnspent(c, p, op);
        AppliedTxs(s, b, i, op.txHash);
        assert Spends(RecAt(b, i)) == InputPts(b.txs[i]);
        NotSpentEarlier(c, b, i, op);
        if CreatedInBlock(b, op) {
          InBlockEarlier(b, i, op);
          var j :| 0 <= j < i && b.txs[j].hash == op.txHash && op.index < |b.txs[j].outputs|;
          AppliedOwn(s, b, i, j);
        } else {
          NotOfBlock(s, b, i, op);
        }
      }
    }
  }

  lemma {:induction false} ReplayIsOk(c: Columns, p: seq<Block>)
    requires Agrees(c, p)
    ensures StateOk(Replay(p))
  {
    ReplayOk(p);
  }

  lemma {:induction false} NotOfBlock(s: State, b: Block, i: nat, op: OutPoint)
    requires i <= |b.txs| && (forall j :: 0 <= j < |b.txs| ==> b.txs[j].hash !in s.txs) && op.txHash in s.txs
    ensures op.txHash !in HashesUpTo(b, i)
  {
  }

  /**
    Resolution in terms of the ledger alone: for a block of new transactions in order, it succeeds
    if and only if every transaction spends distinct outputs that are unspent at its place, be
    they of the chain or of the block itself.
   */
  lemma {:induction false} ResolvesExactly(c: Columns, p: seq<Block>, b: Block)
    requires Agrees(c, p) && p != [] && b.number == |p| && NonContextualOk(b) && Ordered(b)
    requires forall j :: 0 <= j < |b.txs| ==> b.txs[j].hash !in Replay(p).txs
    ensures Resolves(c, b) <==> Fits(Replay(p), b)
  {
    hide Agrees, Replay, FitsAt, Resolves, Ordered, NonContextualOk;
    if Resolves(c, b) {
      forall i | 0 <= i < |b.txs| ensures FitsAt(Replay(p), b, i) { ResolvesFits(c, p, b, i); }
    }
    if Fits(Replay(p), b) { FitsResolves(c, p, b); }
  }

  lemma {:induction false} TxOkAt(s: State, b: Block, k: nat, i: nat)
    requires k <= |b.txs| && TxsOk(s, b, k) && i < k
    ensures TxsOk(s, b, i) && TxOk(ApplyTxs(s, b, i), RecAt(b, i))
  {
    if i < k - 1 { TxOkAt(s, b, k - 1, i); }
  }

  /** In a block that obeys the ledger no input names its own or a later transaction. */
  lemma {:induction false} LedgerOrdered(s: State, b: Block, i: nat)
    requires StateOk(s) && b.number > 0 && TxsOk(s, b, |b.txs|) && i < |b.txs|
    ensures OrderedAt(b, i)
  {
    hide TxsOk, ApplyTxs, StateOk, NoDup;
    forall j, op | i <= j < |b.txs| && op in InputPts(b.txs[i]) ensures b.txs[j].hash != op.txHash {
      TxOkAt(s, b, |b.txs|, i);
      TxOkAt(s, b, |b.txs|, j);
      if IsCellbase(b.txs[i]) {
        assert op == NULL_OUT_POINT;
      } else {
        assert op in Spends(RecAt(b, i));
        AppliedTxs(s, b, i, op.txHash);
        AppliedTxs(s, b, j, op.txHash);
      }
    }
  }

  /**
    The order and resolution checks accept a block exactly if it obeys the ledger: new
    transactions, each of which spends distinct outputs that are unspent at its place.
   */
  lemma {:induction false} AcceptedExactly(c: Columns, p: seq<Block>, b: Block)
    requires Agrees(c, p) && p != [] && BlocksChecked(p) && b.number == |p| && NonContextualOk(b) && InputsPresent(b)
    requires CollisionFree(Elems(p) + {b}) && NoGenesisReplay(p[0], b)
    ensures Ordered(b) && Resolves(c, b) <==> TxsOk(Replay(p), b, |b.txs|)
  {
    hide Agrees, CollisionFree, Replay, Resolves, NonContextualOk, InputsPresent, NoGenesisReplay, BlocksChecked;
    if Ordered(b) && Resolves(c, b) { BlockObeysLedger(c, p, b, |b.txs|); }
    if TxsOk(Replay(p), b, |b.txs|) {
      ReplayIsOk(c, p);
      hide TxsOk;
      forall i | 0 <= i < |b.txs| ensures OrderedAt(b, i) && FitsAt(Replay(p), b, i) {
        LedgerOrdered(Replay(p), b, i);
        TxOkAt(Replay(p), b, |b.txs|, i);
      }
      FitsResolves(c, p, b);
    }
  }

  // ---------------------------------------------------------------- the resolution loops

  /** The position of each transaction of the block, by hash. */
  method OutputIndices(b: Block) returns (at: map<Hash, nat>)
    requires forall i, j :: 0 <= i < j < |b.txs| ==> b.txs[i].hash != b.txs[j].hash
    ensures forall h :: h in at ==> at[h] < |b.txs| && b.txs[at[h]].hash == h
    ensures forall i :: 0 <= i < |b.txs| ==> b.txs[i].hash in at
  {
    at := map[];
    for i := 0 to |b.txs|
      invariant forall h :: h in at ==> at[h] < i && b.txs[at[h]].hash == h
      invariant forall j :: 0 <= j < i ==> b.txs[j].hash in at
    {
      at := at[b.txs[i].hash := i];
    }
  }

  /** The order check of `BlockCellProvider::new`. */
  method CheckOrder(b: Block, at: map<Hash, nat>) returns (ok: bool)
    requires forall i, j :: 0 <= i < j < |b.txs| ==> b.txs[i].hash != b.txs[j].hash
    requires forall h :: h in at ==> at[h] < |b.txs| && b.txs[at[h]].hash == h
    requires forall i :: 0 <= i < |b.txs| ==> b.txs[i].hash in at
    ensures ok <==> Ordered(b)
  {
    for i := 0 to |b.txs|
      invariant forall j :: 0 <= j < i ==> OrderedAt(b, j)
    {
      var ops := InputPts(b.txs[i]);
      for k := 0 to |ops|
        invariant forall x, j :: 0 <= x < k && i <= j < |b.txs| ==> b.txs[j].hash != ops[x].txHash
      {
        if ops[k].txHash in at && at[ops[k].txHash] >= i {
          assert ops[k] in InputPts(b.txs[i]) && !OrderedAt(b, i);
          return false;
        }
      }
      assert OrderedAt(b, i);
    }
    return true;
  }

  /** `resolve_transaction`: the out points the transactions before it used are in `seen`. */
  method ResolveTx(c: Columns, b: Block, at: map<Hash, nat>, i: nat, seen: set<OutPoint>) returns (ok: bool,
                                                                                                   used: set<OutPoint>)
    requires forall x, y :: 0 <= x < y < |b.txs| ==> b.txs[x].hash != b.txs[y].hash
    requires forall h :: h in at ==> at[h] < |b.txs| && b.txs[at[h]].hash == h
    requires forall x :: 0 <= x < |b.txs| ==> b.txs[x].hash in at
    requires i < |b.txs|
    requires forall op :: op in seen <==> exists j :: 0 <= j < i && !IsCellbase(b.txs[j]) && op in InputPts(b.txs[j])
    ensures ok <==> ResolvesTx(c, b, i)
    ensures ok ==> used == if IsCellbase(b.txs[i]) then {} else Elems(InputPts(b.txs[i]))
  {
    hide CellAt;
    used := {};
    if IsCellbase(b.txs[i]) { return true, used; }
    var ops := InputPts(b.txs[i]);
    for k := 0 to |ops|
      invariant used == Elems(ops[..k]) && NoDup(ops[..k])
      invariant forall x :: 0 <= x < k ==> ops[x] !in seen && OverlayLive(c, b, ops[x])
    {
      var op := ops[k];
      var inBlock := op.txHash in at && op.index < |b.txs[at[op.txHash]].outputs|;
      assert inBlock == CreatedInBlock(b, op);
      if op in used || op in seen || !(inBlock || CellAt(c, op).Live?) {
        assert op in InputPts(b.txs[i]);
        if op in used {
          var x :| 0 <= x < k && ops[x] == op;
          assert !NoDup(ops);
        }
        return false, used;
      }
      assert ops[..k + 1] == ops[..k] + [op];
      used := used + {op};
    }
    assert ops[..|ops|] == ops;
    return true, used;
  }

  datatype Resolution = OutOfOrder | Unresolved | Resolved

  /** Building the block's cell provider and resolving its transactions in order. */
  method ResolveBlock(c: Columns, b: Block) returns (r: Resolution)
    requires NonContextualOk(b)
    ensures r == OutOfOrder <==> !Ordered(b)
    ensures r == Resolved <==> Ordered(b) && Resolves(c, b)
  {
    var at := OutputIndices(b);
    var ordered := CheckOrder(b, at);
    if !ordered { return OutOfOrder; }
    var seen: set<OutPoint> := {};
    for i := 0 to |b.txs|
      invariant forall j :: 0 <= j < i ==> ResolvesTx(c, b, j)
      invariant forall op :: op in seen <==> exists j :: 0 <= j < i && !IsCellbase(b.txs[j]) && op in InputPts(b.txs[j])
    {
      var good, used := ResolveTx(c, b, at, i, seen);
      if !good { return Unresolved; }
      seen := seen + used;
    }
    return Resolved;
  }
}
