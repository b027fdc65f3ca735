/**
  The genesis block is special: initialising the store does not apply the inputs of genesis
  transactions. This module states exactly what that changes.
 */
module Genesis {
  import opened Types
  import opened Ledger
  import opened Store
  import opened CellSet
  import opened MainChain
  import opened Admission
  import opened Chain
  import opened ChainTheorems
  import opened ExampleChain

  // ---------------------------------------------------------------- initialising against attaching

  /** The input op has an effect on the entry of an earlier transaction with these outputs. */
  predicate Touches(op: OutPoint, tx: Tx) {
    op.txHash == tx.hash && (op.index < |tx.outputs| || tx.outputs == [])
  }

  /** No genesis transaction spends an output of an earlier genesis transaction. */
  predicate SpendsNoGenesisOutput(g: Block, k: nat)
    requires k <= |g.txs|
  {
    forall i, j, op :: 0 <= j < i < k && op in InputPts(g.txs[i]) ==> !Touches(op, g.txs[j])
  }

  lemma {:induction false} InitKeys(g: Block, k: nat)
    requires k <= |g.txs| && NoDupHashes(g)
    ensures InitCells(g, k).Keys == HashesUpTo(g, k)
    ensures forall j :: 0 <= j < k ==>
              var tx := g.txs[j]; tx.hash in InitCells(g, k) && InitCells(g, k)[tx.hash] == NewMeta(g, tx, false)
  {
    if k > 0 {
      InitKeys(g, k - 1);
      assert HashesUpTo(g, k) == HashesUpTo(g, k - 1) + {g.txs[k - 1].hash};
    }
  }

  predicate NoDupHashes(g: Block) {
    forall i, j :: 0 <= i < j < |g.txs| ==> g.txs[i].hash != g.txs[j].hash
  }

  lemma {:induction false} UntouchedKeeps(g: Block, k: nat, op: OutPoint)
    requires k <= |g.txs| && NoDupHashes(g) && forall j :: 0 <= j < k ==> !Touches(op, g.txs[j])
    ensures SpendOne(InitCells(g, k), op) == InitCells(g, k)
  {
    InitKeys(g, k);
    if op.txHash in InitCells(g, k) {
      var j :| 0 <= j < k && g.txs[j].hash == op.txHash;
      assert !Touches(op, g.txs[j]);
      assert !NewMeta(g, g.txs[j], false).dead[0];
    }
  }

  lemma {:induction false} UntouchedKeepsAll(g: Block, k: nat, ops: seq<OutPoint>)
    requires k <= |g.txs| && NoDupHashes(g)
    requires forall j, op :: 0 <= j < k && op in ops ==> !Touches(op, g.txs[j])
    ensures SpendAll(InitCells(g, k), ops) == InitCells(g, k)
  {
    if ops != [] {
      var rest := ops[..|ops| - 1];
      forall j, op | 0 <= j < k && op in rest ensures !Touches(op, g.txs[j]) {
        assert op in ops;
      }
      assert ops[|ops| - 1] in ops;
      UntouchedKeepsAll(g, k, rest);
      UntouchedKeeps(g, k, ops[|ops| - 1]);
    }
  }

  lemma {:induction false} UntouchedInit(g: Block, k: nat)
    requires k <= |g.txs| && NoDupHashes(g) && SpendsNoGenesisOutput(g, k)
    ensures AttachTxs(map[], g, k) == InitCells(g, k)
  {
    if k > 0 {
      UntouchedInit(g, k - 1);
      UntouchedKeepsAll(g, k - 1, InputPts(g.txs[k - 1]));
    }
  }

  /** The entry of the transaction is missing, or shows the output as dead. */
  predicate Hurt(cells: map<Hash, Meta>, op: OutPoint) {
    op.txHash !in cells || (op.index < |cells[op.txHash].dead| && cells[op.txHash].dead[op.index])
  }

  lemma {:induction false} HurtStays(cells: map<Hash, Meta>, ops: seq<OutPoint>, op: OutPoint)
    requires Hurt(cells, op)
    ensures Hurt(SpendAll(cells, ops), op)
  {
    if ops != [] { HurtStays(cells, ops[..|ops| - 1], op); }
  }

  lemma {:induction false} HurtBy(cells: map<Hash, Meta>, ops: seq<OutPoint>, op: OutPoint)
    requires op in ops && (op.txHash in cells ==> op.index < |cells[op.txHash].dead| || cells[op.txHash].dead == [])
    ensures Hurt(SpendAll(cells, ops), op)
  {
    var rest, last := ops[..|ops| - 1], ops[|ops| - 1];
    if op in rest {
      HurtBy(cells, rest, op);
      HurtStays(SpendAll(cells, rest), [last], op);
      assert SpendAll(SpendAll(cells, rest), [last]) == SpendOne(SpendAll(cells, rest), last) by {
        assert [last][..0] == [];
      }
    } else {
      LengthsKept(cells, rest, op.txHash);
    }
  }

  lemma {:induction false} LengthsKept(cells: map<Hash, Meta>, ops: seq<OutPoint>, h: Hash)
    ensures h in SpendAll(cells, ops) ==> h in cells && |SpendAll(cells, ops)[h].dead| == |cells[h].dead|
  {
    if ops != [] { LengthsKept(cells, ops[..|ops| - 1], h); }
  }

  lemma {:induction false} AttachLengths(g: Block, k: nat, j: nat)
    requires j < k <= |g.txs| && NoDupHashes(g)
    ensures var cells, tx := AttachTxs(map[], g, k), g.txs[j];
            tx.hash in cells ==> |cells[tx.hash].dead| == |tx.outputs|
  {
    if j < k - 1 {
      AttachLengths(g, k - 1, j);
      LengthsKept(AttachTxs(map[], g, k - 1), InputPts(g.txs[k - 1]), g.txs[j].hash);
    }
  }

  lemma {:induction false} TouchedInit(g: Block, k: nat, i: nat, j: nat, op: OutPoint)
    requires j < i < k <= |g.txs| && NoDupHashes(g) && op in InputPts(g.txs[i]) && Touches(op, g.txs[j])
    ensures Hurt(AttachTxs(map[], g, k), op)
  {
    if i == k - 1 {
      AttachLengths(g, k - 1, j);
      HurtBy(AttachTxs(map[], g, k - 1), InputPts(g.txs[i]), op);
    } else {
      TouchedInit(g, k - 1, i, j, op);
      HurtStays(AttachTxs(map[], g, k - 1), InputPts(g.txs[k - 1]), op);
    }
  }

  /**
    The cell set written by initialisation equals the one that attaching the genesis block would
    give if and only if no genesis transaction spends an output of an earlier one.
   */
  lemma {:induction false} InitEqualsAttach(g: Block)
    requires NoDupHashes(g)
    ensures InitCells(g, |g.txs|) == AttachTxs(map[], g, |g.txs|) <==> SpendsNoGenesisOutput(g, |g.txs|)
  {
    if SpendsNoGenesisOutput(g, |g.txs|) {
      UntouchedInit(g, |g.txs|);
    } else {
      var i, j, op :| 0 <= j < i < |g.txs| && op in InputPts(g.txs[i]) && Touches(op, g.txs[j]);
      TouchedInit(g, |g.txs|, i, j, op);
      InitKeys(g, |g.txs|);
      assert !Hurt(InitCells(g, |g.txs|), op);
    }
  }

  // ---------------------------------------------------------------- attaching and detaching again

  /** The block passed the transaction checks on top of the chain p; nothing is said about genesis. */
  ghost predicate Verified(c: Columns, p: seq<Block>, b: Block) {
    && Agrees(c, p) && p != [] && BlocksChecked(p) && b.number == |p|
    && TxChecks(c, b) && UnclesNew(UncleMap(p), b)
    && CollisionFree(Elems(p) + {b})
    && b.hash in c.blocks && c.blocks[b.hash] == b
  }

  lemma {:induction false} RoundTripRestores(c: Columns, p: seq<Block>, b: Block)
    requires Verified(c, p, b) && NoGenesisReplay(p[0], b)
    ensures Agrees(Detach(Attach(c, b), b), p)
  {
    hide Agrees, TxChecks, CollisionFree, NoGenesisReplay, BlocksChecked;
    BlockObeysLedger(c, p, b, |b.txs|);
    AgreesChain(c, p);
    ChainStep(p, b);
    AttachAgrees(c, p, b);
    var q, d := p + [b], Attach(c, b);
    assert q[|p|..] == [b] && q[..|p|] == p;
    RollbackRestores(d, q, |p|, [b]);
    assert DetachAll(d, [b]) == Detach(d, b) by {
      assert [b][..0] == [];
    }
  }

  lemma {:induction false} GenesisRecorded(c: Columns, p: seq<Block>, j: nat)
    requires Agrees(c, p) && p != [] && j < |p[0].txs|
    ensures p[0].txs[j].hash in c.txInfo
  {
    ReplayGrows(p, 0);
    assert p[0].txs[j].hash in TxHashes(p[0]);
  }

  lemma {:induction false} PutInfosKeys(m: map<Hash, TxInfo>, b: Block, k: nat)
    requires k <= |b.txs|
    ensures PutInfos(m, b, k).Keys == m.Keys + HashesUpTo(b, k)
    ensures forall h :: h in m && h !in HashesUpTo(b, k) ==> PutInfos(m, b, k)[h] == m[h]
  {
    if k > 0 {
      PutInfosKeys(m, b, k - 1);
      assert HashesUpTo(b, k) == HashesUpTo(b, k - 1) + {b.txs[k - 1].hash};
    }
  }

  /** A round trip of any block on any columns forgets where the transactions of that block are, and no more. */
  lemma {:induction false} RoundTripInfos(c: Columns, b: Block)
    ensures Detach(Attach(c, b), b).txInfo == c.txInfo - TxHashes(b)
    ensures Detach(Attach(c, b), b).blocks == c.blocks
  {
    PutInfosKeys(c.txInfo, b, |b.txs|);
  }

  /** Attaching a verified block leads to the replay of the longer chain unless it commits a genesis transaction. */
  lemma {:induction false} AttachExactly(c: Columns, p: seq<Block>, b: Block)
    requires Verified(c, p, b)
    ensures Agrees(Attach(c, b), p + [b]) <==> NoGenesisReplay(p[0], b)
  {
    hide Agrees, TxChecks, CollisionFree, NoGenesisReplay, BlocksChecked;
    AgreesChain(c, p);
    if NoGenesisReplay(p[0], b) {
      BlockObeysLedger(c, p, b, |b.txs|);
      ChainStep(p, b);
      AttachAgrees(c, p, b);
    }
    if Agrees(Attach(c, b), p + [b]) {
      AgreesChain(Attach(c, b), p + [b]);
      LedgerReplayFree(p + [b]);
      assert (p + [b])[|p|] == b && (p + [b])[0] == p[0];
    }
  }

  /**
    Attaching a verified block and detaching it again restores the transaction infos if and only
    if the block commits no genesis transaction again; in that case every column is restored.
   */
  lemma {:induction false} RoundTripExactly(c: Columns, p: seq<Block>, b: Block)
    requires Verified(c, p, b)
    ensures Detach(Attach(c, b), b).txInfo == c.txInfo <==> NoGenesisReplay(p[0], b)
    ensures NoGenesisReplay(p[0], b) ==> Agrees(Detach(Attach(c, b), b), p)
  {
    if NoGenesisReplay(p[0], b) {
      RoundTripRestores(c, p, b);
    } else {
      var i, j :| 0 <= i < |b.txs| && 0 <= j < |p[0].txs| && b.txs[i].hash == p[0].txs[j].hash;
      GenesisRecorded(c, p, j);
      RoundTripInfos(c, b);
      assert b.txs[i].hash in TxHashes(b);
    }
  }

  /** After the round trip a genesis transaction, which the chain still holds, is found unless the block has it. */
  lemma {:induction false} GenesisTxFound(c: Columns, p: seq<Block>, b: Block, j: nat)
    requires Agrees(c, p) && p != [] && j < |p[0].txs|
    ensures GetTransaction(c, p[0].txs[j].hash).Some?
    ensures GetTransaction(Detach(Attach(c, b), b), p[0].txs[j].hash).Some? <==> p[0].txs[j].hash !in TxHashes(b)
  {
    GenesisRecorded(c, p, j);
    RoundTripInfos(c, b);
    StoredBacks(c.blocks, p);
    RecordedIsFound(Replay(p), c, p[0].txs[j].hash);
  }

  // ---------------------------------------------------------------- a run that replays genesis

  const REPLAYED: Tx := GENESIS.txs[1]

  /** The block of the example that commits a genesis transaction again passes every check on the chain below it. */
  lemma {:induction false} ReplayVerified(c: Columns)
    requires Agrees(c, Blocks(REPLAYED)[..3]) && c.blocks[At(REPLAYED, 3).hash := At(REPLAYED, 3)] == c.blocks
    ensures Verified(c, Blocks(REPLAYED)[..3], At(REPLAYED, 3))
    ensures Checks(RULES, c, Blocks(REPLAYED)[..3], At(REPLAYED, 3))
  {
    hide Agrees, NonContextualOk, Ordered, Resolves, InputsPresent, CollisionFree, At;
    var p, b := Blocks(REPLAYED)[..3], At(REPLAYED, 3);
    BlockPasses(REPLAYED, c, 3);
    NoCollisions(REPLAYED);
    FewerBlocks(Elems(p) + {b}, Elems(Blocks(REPLAYED)));
    TxsPass(REPLAYED, c, 1);
    TxsPass(REPLAYED, c, 2);
    ExampleShape();
  }

  lemma {:induction false} ExampleShape()
    ensures At(REPLAYED, 3).number == 3 && At(REPLAYED, 3).uncles == []
    ensures REPLAYED.hash in TxHashes(At(REPLAYED, 3))
  {
    assert At(REPLAYED, 3).txs[1] == REPLAYED;
  }

  /** Attaching it and rolling it back loses the genesis transaction, which the main chain still holds. */
  lemma {:induction false} ReplayLoses(c: Columns)
    requires Agrees(c, Blocks(REPLAYED)[..3])
    ensures GetTransaction(c, REPLAYED.hash).Some?
    ensures GetTransaction(Detach(Attach(c, At(REPLAYED, 3)), At(REPLAYED, 3)), REPLAYED.hash) == None
  {
    hide Agrees, GetTransaction, Attach, Detach, TxHashes;
    ExampleShape();
    GenesisTxFound(c, Blocks(REPLAYED)[..3], At(REPLAYED, 3), 1);
  }

  /**
    The condition of the round trip is needed: the service accepts a block that commits a genesis
    transaction again, on a store that is good. The store after it is not, and rolling the block
    back leaves the main chain below it without a transaction that it holds.
   */
  method ReplayRun() returns (before: Columns, after: Columns)
    ensures Agrees(before, Blocks(REPLAYED)[..3]) && Checks(RULES, before, Blocks(REPLAYED)[..3], At(REPLAYED, 3))
    ensures InsertedInto(before, At(REPLAYED, 3), after) && after.tip == At(REPLAYED, 3).hash
    ensures Reached(GENESIS, RULES, before) && !Reached(GENESIS, RULES, after)
    ensures GetTransaction(before, REPLAYED.hash).Some?
    ensures GetTransaction(Detach(Attach(before, At(REPLAYED, 3)), At(REPLAYED, 3)), REPLAYED.hash) == None
  {
    hide Agrees, InsertedInto, Checks, GetTransaction, Attach, Detach, Reached;
    var cs := Grow(REPLAYED);
    before, after := cs[2], cs[3];
    assert GrowsAt(REPLAYED, cs, 3);
    BlockPasses(REPLAYED, before, 3);
    ReplayLoses(before);
  }
}
