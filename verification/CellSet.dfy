/**
  The cell set, changed in place block by block, and the proof that it always is the cell set
  of the replayed ledger: attaching applies a block, detaching forgets it, also when the entry
  of a fully spent transaction was deleted and has to be rebuilt.
 */
module CellSet {
  import opened Types
  import opened Ledger
  import opened Store

  function NewMeta(b: Block, tx: Tx, dead: bool): Meta {
    Meta(b.number, b.epoch, b.hash, IsCellbase(tx), seq(|tx.outputs|, _ => dead))
  }

  function SetDead(m: Meta, index: nat, dead: bool): Meta {
    if index < |m.dead| then m.(dead := m.dead[index := dead]) else m
  }

  predicate AllDead(m: Meta) {
    forall i :: 0 <= i < |m.dead| ==> m.dead[i]
  }

  function SpendOne(cells: map<Hash, Meta>, op: OutPoint): map<Hash, Meta> {
    if op.txHash !in cells then cells else
    var m := SetDead(cells[op.txHash], op.index, true);
    if AllDead(m) then cells - {op.txHash} else cells[op.txHash := m]
  }

  function SpendAll(cells: map<Hash, Meta>, ops: seq<OutPoint>): map<Hash, Meta> {
    if ops == [] then cells else SpendOne(SpendAll(cells, ops[..|ops| - 1]), ops[|ops| - 1])
  }

  function AttachTx(cells: map<Hash, Meta>, b: Block, tx: Tx): map<Hash, Meta> {
    SpendAll(cells, InputPts(tx))[tx.hash := NewMeta(b, tx, false)]
  }

  /** The effect of `attach_block_cell` on the first k transactions of a block. */
  function AttachTxs(cells: map<Hash, Meta>, b: Block, k: nat): map<Hash, Meta>
    requires k <= |b.txs|
  {
    if k == 0 then cells else AttachTx(AttachTxs(cells, b, k - 1), b, b.txs[k - 1])
  }

  /** Un-spending one out point; `c` supplies the transaction of an entry that was deleted. */
  function UnspendOne(c: Columns, cells: map<Hash, Meta>, op: OutPoint): map<Hash, Meta> {
    if op.txHash in cells then cells[op.txHash := SetDead(cells[op.txHash], op.index, false)] else
    match GetTransaction(c, op.txHash)
    case None => cells
    case Some((tx, b)) => cells[op.txHash := SetDead(NewMeta(b, tx, true), op.index, false)]
  }

  function UnspendAll(c: Columns, cells: map<Hash, Meta>, ops: seq<OutPoint>): map<Hash, Meta> {
    if ops == [] then cells else UnspendOne(c, UnspendAll(c, cells, ops[..|ops| - 1]), ops[|ops| - 1])
  }

  function DetachTx(c: Columns, cells: map<Hash, Meta>, tx: Tx): map<Hash, Meta> {
    UnspendAll(c, cells - {tx.hash}, InputPts(tx))
  }

  /** The effect of `detach_block_cell` once the transactions from k on are undone, last first. */
  function DetachTxs(c: Columns, cells: map<Hash, Meta>, b: Block, k: nat): map<Hash, Meta>
    requires k <= |b.txs|
    decreases |b.txs| - k
  {
    if k == |b.txs| then cells else DetachTx(c, DetachTxs(c, cells, b, k + 1), b.txs[k])
  }

  // ---------------------------------------------------------------- attaching

  /** A cell-set entry depends only on the transaction and on which of its outputs are spent. */
  lemma {:induction false} EntryFrame(s: State, s': State, h: Hash)
    requires h in s.txs && h in s'.txs && s.txs[h] == s'.txs[h]
    requires forall i: nat :: OutPoint(h, i) in s.spent <==> OutPoint(h, i) in s'.spent
    ensures AllSpent(s, h) == AllSpent(s', h) && MetaOf(s, h) == MetaOf(s', h)
  {
    assert MetaOf(s, h).dead == MetaOf(s', h).dead;
  }

  lemma {:induction false} AllDeadIsAllSpent(s: State, h: Hash)
    requires h in s.txs && |s.txs[h].tx.outputs| > 0
    ensures AllDead(MetaOf(s, h)) == AllSpent(s, h)
  {
    var m := MetaOf(s, h);
    if AllDead(m) {
      forall i: nat | i < |s.txs[h].tx.outputs| ensures OutPoint(h, i) in s.spent {
        assert m.dead[i];
      }
    }
  }

  lemma {:induction false} SpentEntry(s: State, op: OutPoint)
    requires Created(s, op)
    ensures SetDead(MetaOf(s, op.txHash), op.index, true) == MetaOf(State(s.txs, s.spent + {op}), op.txHash)
  {
    var s' := State(s.txs, s.spent + {op});
    assert SetDead(MetaOf(s, op.txHash), op.index, true).dead == MetaOf(s', op.txHash).dead;
  }

  /** States that differ in one transaction and its out points have cell sets that differ in one entry. */
  lemma {:induction false} EntryUpdate(s: State, s': State, h: Hash)
    requires s'.txs - {h} == s.txs - {h}
    requires forall op: OutPoint :: op.txHash != h ==> (op in s.spent <==> op in s'.spent)
    ensures CellMap(s') == if h in s'.txs && !AllSpent(s', h) then CellMap(s)[h := MetaOf(s', h)] else CellMap(s) - {h}
  {
    hide AllSpent, MetaOf;
    var left := CellMap(s');
    var right := if h in s'.txs && !AllSpent(s', h) then CellMap(s)[h := MetaOf(s', h)] else CellMap(s) - {h};
    forall g ensures g in left <==> g in right
             ensures g in left ==> left[g] == right[g]
    {
      if g != h {
        assert g in s.txs <==> g in s.txs - {h};
        assert g in s'.txs <==> g in s'.txs - {h};
        if g in s.txs {
          assert s.txs[g] == (s.txs - {h})[g] == s'.txs[g];
          EntryFrame(s, s', g);
        }
      }
    }
    assert left == right;
  }

  lemma {:induction false} SpendStep(s: State, op: OutPoint)
    requires op !in s.spent
    requires op.txHash in s.txs ==> Created(s, op)
    ensures SpendOne(CellMap(s), op) == CellMap(State(s.txs, s.spent + {op}))
  {
    var s' := State(s.txs, s.spent + {op});
    EntryUpdate(s, s', op.txHash);
    if op.txHash in s.txs {
      SpentEntry(s, op);
      AllDeadIsAllSpent(s', op.txHash);
      assert !AllSpent(s, op.txHash);
    } else {
      assert CellMap(s) - {op.txHash} == CellMap(s);
    }
  }

  lemma {:induction false} SpendSteps(s: State, ops: seq<OutPoint>)
    requires NoDup(ops) && forall op :: op in ops ==> Unspent(s, op)
    ensures SpendAll(CellMap(s), ops) == CellMap(State(s.txs, s.spent + Elems(ops)))
  {
    hide CellMap, SpendOne;
    if ops == [] {
      assert s.spent + Elems(ops) == s.spent;
    } else {
      var rest, op := ops[..|ops| - 1], ops[|ops| - 1];
      SpendSteps(s, rest);
      assert op in ops && op !in rest;
      SpendStep(State(s.txs, s.spent + Elems(rest)), op);
      assert s.spent + Elems(ops) == s.spent + Elems(rest) + {op};
    }
  }

  lemma {:induction false} CreateStep(s: State, r: Rec)
    requires r.tx.hash !in s.txs
    requires forall op :: op in s.spent ==> op.txHash != r.tx.hash
    ensures CellMap(s)[r.tx.hash := MetaOf(State(s.txs[r.tx.hash := r], s.spent), r.tx.hash)]
         == CellMap(State(s.txs[r.tx.hash := r], s.spent))
  {
    var s' := State(s.txs[r.tx.hash := r], s.spent);
    assert OutPoint(r.tx.hash, 0) !in s.spent;
    EntryUpdate(s, s', r.tx.hash);
  }

  /** Attaching one transaction to the cell set of a state gives the cell set after that transaction. */
  lemma {:induction false} AttachTxRefines(s: State, b: Block, k: nat)
    requires k < |b.txs| && b.number > 0
    requires StateOk(s) && TxOk(s, RecAt(b, k))
    ensures AttachTx(CellMap(s), b, b.txs[k]) == CellMap(ApplyTx(s, RecAt(b, k)))
  {
    var tx, r := b.txs[k], RecAt(b, k);
    var s1 := State(s.txs, s.spent + Elems(Spends(r)));
    if IsCellbase(tx) {
      assert InputPts(tx) == [NULL_OUT_POINT];
      assert SpendAll(CellMap(s), []) == CellMap(s);
      assert s1 == s;
    } else {
      SpendSteps(s, Spends(r));
    }
    assert SpendAll(CellMap(s), InputPts(tx)) == CellMap(s1);
    CreateStep(s1, r);
    assert NewMeta(b, tx, false) == MetaOf(ApplyTx(s, r), tx.hash) by {
      assert NewMeta(b, tx, false).dead == MetaOf(ApplyTx(s, r), tx.hash).dead;
    }
  }

  lemma {:induction false} AttachRefines(s: State, b: Block, k: nat)
    requires k <= |b.txs| && b.number > 0
    requires StateOk(s) && TxsOk(s, b, k)
    ensures AttachTxs(CellMap(s), b, k) == CellMap(ApplyTxs(s, b, k))
  {
    if k > 0 {
      AttachRefines(s, b, k - 1);
      ApplyTxsKeepsOk(s, b, k - 1);
      AttachTxRefines(ApplyTxs(s, b, k - 1), b, k - 1);
    }
  }

  // ---------------------------------------------------------------- detaching

  /** The transaction-info column of a state. */
  function InfoMap(s: State): map<Hash, TxInfo> {
    map h | h in s.txs :: TxInfo(s.txs[h].blockHash, s.txs[h].index, s.txs[h].number, s.txs[h].epoch)
  }

  /** Every recorded transaction can be read back from the stored blocks. */
  predicate Backed(s: State, blocks: map<Hash, Block>) {
    forall h :: h in s.txs ==>
      var r := s.txs[h];
      r.blockHash in blocks && r.index < |blocks[r.blockHash].txs| &&
      blocks[r.blockHash].hash == r.blockHash && r == RecAt(blocks[r.blockHash], r.index)
  }

  lemma {:induction false} UnspentEntry(s: State, op: OutPoint)
    requires Created(s, op)
    ensures SetDead(MetaOf(s, op.txHash), op.index, false) == MetaOf(State(s.txs, s.spent - {op}), op.txHash)
  {
    var s' := State(s.txs, s.spent - {op});
    assert SetDead(MetaOf(s, op.txHash), op.index, false).dead == MetaOf(s', op.txHash).dead;
  }

  /** The entry rebuilt for a fully spent transaction is the one the cell set had lost. */
  lemma {:induction false} RecoveredEntry(s: State, c: Columns, h: Hash)
    requires h in s.txs && AllSpent(s, h) && Backed(s, c.blocks) && c.txInfo == InfoMap(s)
    ensures GetTransaction(c, h) == Some((s.txs[h].tx, c.blocks[s.txs[h].blockHash]))
    ensures NewMeta(c.blocks[s.txs[h].blockHash], s.txs[h].tx, true) == MetaOf(s, h)
  {
    assert NewMeta(c.blocks[s.txs[h].blockHash], s.txs[h].tx, true).dead == MetaOf(s, h).dead;
  }

  lemma {:induction false} UnspendStep(s: State, c: Columns, op: OutPoint)
    requires Backed(s, c.blocks) && c.txInfo == InfoMap(s)
    requires op in s.spent && (op.txHash in s.txs ==> Created(s, op))
    ensures UnspendOne(c, CellMap(s), op) == CellMap(State(s.txs, s.spent - {op}))
  {
    var s' := State(s.txs, s.spent - {op});
    EntryUpdate(s, s', op.txHash);
    if op.txHash in s.txs {
      UnspentEntry(s, op);
      if AllSpent(s, op.txHash) { RecoveredEntry(s, c, op.txHash); }
      assert !AllSpent(s', op.txHash);
    } else {
      assert CellMap(s) - {op.txHash} == CellMap(s);
    }
  }

  /** Un-spending, seen outside the set `bs` of transactions that are being detached themselves. */
  lemma {:induction false} UnspendOutside(c: Columns, cells: map<Hash, Meta>, bs: set<Hash>, op: OutPoint)
    requires c.txInfo.Keys !! bs
    ensures UnspendOne(c, cells, op).Keys * bs == cells.Keys * bs
    ensures op.txHash in bs ==> UnspendOne(c, cells, op) - bs == cells - bs
    ensures op.txHash !in bs ==> UnspendOne(c, cells, op) - bs == UnspendOne(c, cells - bs, op)
  {
  }

  lemma {:induction false} UnspendStepOutside(s: State, c: Columns, cells: map<Hash, Meta>, bs: set<Hash>, op: OutPoint)
    requires s.txs.Keys !! bs && cells - bs == CellMap(s)
    requires Backed(s, c.blocks) && c.txInfo == InfoMap(s)
    requires op in s.spent && (op.txHash in s.txs ==> Created(s, op))
    ensures UnspendOne(c, cells, op) - bs == CellMap(State(s.txs, s.spent - {op}))
    ensures UnspendOne(c, cells, op).Keys * bs == cells.Keys * bs
  {
    UnspendOutside(c, cells, bs, op);
    UnspendStep(s, c, op);
    assert op.txHash in bs ==> UnspendOne(c, CellMap(s), op) == CellMap(s);
  }

  lemma {:induction false} UnspendSteps(s: State, c: Columns, cells: map<Hash, Meta>, bs: set<Hash>, ops: seq<OutPoint>)
    requires s.txs.Keys !! bs && cells - bs == CellMap(s)
    requires Backed(s, c.blocks) && c.txInfo == InfoMap(s)
    requires NoDup(ops) && forall op :: op in ops ==> op in s.spent && (op.txHash in s.txs ==> Created(s, op))
    ensures UnspendAll(c, cells, ops) - bs == CellMap(State(s.txs, s.spent - Elems(ops)))
    ensures UnspendAll(c, cells, ops).Keys * bs == cells.Keys * bs
  {
    if ops == [] {
      assert s.spent - Elems(ops) == s.spent;
    } else {
      var rest, op := ops[..|ops| - 1], ops[|ops| - 1];
      UnspendSteps(s, c, cells, bs, rest);
      assert op in ops && op !in rest;
      UnspendStepOutside(State(s.txs, s.spent - Elems(rest)), c, UnspendAll(c, cells, rest), bs, op);
      assert s.spent - Elems(ops) == s.spent - Elems(rest) - {op};
    }
  }

  function SpendsFrom(b: Block, k: nat): set<OutPoint>
    requires k <= |b.txs|
  {
    set i, op | k <= i < |b.txs| && op in Spends(RecAt(b, i)) :: op
  }

  /**
    What detaching a block needs of the state it starts from. It does not ask for the block to
    be the last one: blocks above it may be detached before or after it.
   */
  predicate CanDetach(s: State, b: Block) {
    && b.number > 0
    && ZERO_HASH !in s.txs
    && (forall op :: op in s.spent && op.txHash in s.txs ==> Created(s, op))
    && TxHashes(b) <= s.txs.Keys
    && BlockSpends(b) <= s.spent
    && (forall i :: 0 <= i < |b.txs| ==> NoDup(Spends(RecAt(b, i))))
    && (forall i, j :: 0 <= i < j < |b.txs| ==> Elems(Spends(RecAt(b, i))) !! Elems(Spends(RecAt(b, j))))
  }

  /** The state without the transactions of b, and without the spending done from k on. */
  function Undone(s: State, b: Block, k: nat): State
    requires k <= |b.txs|
  {
    State(s.txs - TxHashes(b), s.spent - SpendsFrom(b, k))
  }

  lemma {:induction false} UndoneStep(s: State, b: Block, k: nat)
    requires k < |b.txs| && CanDetach(s, b)
    ensures Undone(s, b, k) == State(Undone(s, b, k + 1).txs, Undone(s, b, k + 1).spent - Elems(Spends(RecAt(b, k))))
    ensures Elems(Spends(RecAt(b, k))) <= Undone(s, b, k + 1).spent
  {
    var ops := Elems(Spends(RecAt(b, k)));
    assert SpendsFrom(b, k) == SpendsFrom(b, k + 1) + ops;
    assert ops <= BlockSpends(b);
    assert ops !! SpendsFrom(b, k + 1);
  }

  lemma {:induction false} CellbaseUnspendsNothing(c: Columns, cells: map<Hash, Meta>, tx: Tx)
    requires IsCellbase(tx) && ZERO_HASH !in c.txInfo && ZERO_HASH !in cells
    ensures UnspendAll(c, cells, InputPts(tx)) == cells
  {
    assert InputPts(tx) == [NULL_OUT_POINT];
    assert UnspendAll(c, cells, []) == cells;
  }

  lemma {:induction false} DetachTxRefines(s: State, c: Columns, cells: map<Hash, Meta>, b: Block, k: nat)
    requires k < |b.txs| && CanDetach(s, b)
    requires cells - TxHashes(b) == CellMap(Undone(s, b, k + 1))
    requires Backed(Undone(s, b, k + 1), c.blocks) && c.txInfo == InfoMap(Undone(s, b, k + 1))
    ensures DetachTx(c, cells, b.txs[k]) - TxHashes(b) == CellMap(Undone(s, b, k))
    ensures DetachTx(c, cells, b.txs[k]).Keys * TxHashes(b) == (cells.Keys - {b.txs[k].hash}) * TxHashes(b)
  {
    var tx, s1, bs := b.txs[k], Undone(s, b, k + 1), TxHashes(b);
    var cells1 := cells - {tx.hash};
    assert tx.hash in bs;
    assert cells1 - bs == cells - bs;
    UndoneStep(s, b, k);
    if IsCellbase(tx) {
      assert ZERO_HASH !in cells1 - bs;
      CellbaseUnspendsNothing(c, cells1, tx);
      assert Undone(s, b, k).spent == s1.spent;
    } else {
      forall op | op in Spends(RecAt(b, k)) ensures op in s1.spent {
        assert op in Elems(Spends(RecAt(b, k)));
      }
      UnspendSteps(s1, c, cells1, bs, Spends(RecAt(b, k)));
    }
  }

  lemma {:induction false} DetachSteps(s: State, c: Columns, b: Block, k: nat)
    requires k <= |b.txs| && CanDetach(s, b)
    requires Backed(Undone(s, b, 0), c.blocks) && c.txInfo == InfoMap(Undone(s, b, 0))
    ensures DetachTxs(c, CellMap(s), b, k) - TxHashes(b) == CellMap(Undone(s, b, k))
    ensures DetachTxs(c, CellMap(s), b, k).Keys * TxHashes(b) <= HashesUpTo(b, k)
    decreases |b.txs| - k
  {
    if k == |b.txs| {
      DropHashes(s, b);
    } else {
      DetachSteps(s, c, b, k + 1);
      assert InfoMap(Undone(s, b, k + 1)) == InfoMap(Undone(s, b, 0));
      DetachTxRefines(s, c, DetachTxs(c, CellMap(s), b, k + 1), b, k);
      KeysShrink(DetachTxs(c, CellMap(s), b, k + 1).Keys, DetachTxs(c, CellMap(s), b, k).Keys, b, k);
    }
  }

  lemma {:induction false} KeysShrink(before: set<Hash>, after: set<Hash>, b: Block, k: nat)
    requires k < |b.txs| && before * TxHashes(b) <= HashesUpTo(b, k + 1)
    requires after * TxHashes(b) == (before - {b.txs[k].hash}) * TxHashes(b)
    ensures after * TxHashes(b) <= HashesUpTo(b, k)
  {
    assert HashesUpTo(b, k + 1) == HashesUpTo(b, k) + {b.txs[k].hash};
    forall h | h in after * TxHashes(b) ensures h in HashesUpTo(b, k) {
      assert h in (before - {b.txs[k].hash}) * TxHashes(b);
      assert h in before * TxHashes(b);
    }
  }

  lemma {:induction false} DropEntries(s: State, hs: set<Hash>)
    ensures CellMap(State(s.txs - hs, s.spent)) == CellMap(s) - hs
  {
    var s' := State(s.txs - hs, s.spent);
    forall h | h in s'.txs ensures AllSpent(s, h) == AllSpent(s', h) && MetaOf(s, h) == MetaOf(s', h) {
      EntryFrame(s, s', h);
    }
  }

  lemma {:induction false} DropHashes(s: State, b: Block)
    ensures CellMap(s) - TxHashes(b) == CellMap(Undone(s, b, |b.txs|))
  {
    assert Undone(s, b, |b.txs|).spent == s.spent;
    DropEntries(s, TxHashes(b));
  }

  /**
    Detaching a block from the cell set of any state that holds it gives the cell set of the
    state without it. Deleted entries of fully spent transactions are rebuilt on the way.
   */
  lemma {:induction false} DetachRefines(s: State, c: Columns, b: Block)
    requires CanDetach(s, b)
    requires Backed(Undone(s, b, 0), c.blocks) && c.txInfo == InfoMap(Undone(s, b, 0))
    ensures DetachTxs(c, CellMap(s), b, 0) == CellMap(Remove(s, [b]))
  {
    DetachSteps(s, c, b, 0);
    NothingLeft(DetachTxs(c, CellMap(s), b, 0), TxHashes(b));
    UndoneIsRemove(s, b);
  }

  lemma {:induction false} NothingLeft(cells: map<Hash, Meta>, bs: set<Hash>)
    requires cells.Keys * bs == {}
    ensures cells - bs == cells
  {
    assert forall h :: h in cells && h in bs ==> h in cells.Keys * bs;
  }

  lemma {:induction false} UndoneIsRemove(s: State, b: Block)
    ensures Undone(s, b, 0) == Remove(s, [b])
  {
    assert HashesOf([b]) == TxHashes(b) && SpendsOf([b]) == BlockSpends(b);
    assert SpendsFrom(b, 0) == BlockSpends(b);
  }

  // ---------------------------------------------------------------- reading

  /** `CellProviderWrapper::cell`; the `expect` on the cell meta is the last branch. */
  function CellAt(c: Columns, op: OutPoint): CellStatus {
    if op.txHash !in c.cells || op.index >= |c.cells[op.txHash].dead| then Unknown else
    if c.cells[op.txHash].dead[op.index] then Dead else
    match GetTransaction(c, op.txHash)
    case Some((tx, b)) => if op.index < |tx.outputs| then Live(tx.outputs[op.index], c.txInfo[op.txHash]) else Unknown
    case None => Unknown
  }

  /** The reading of a recorded transaction, which the source expects to succeed. */
  lemma {:induction false} RecordedIsFound(s: State, c: Columns, h: Hash)
    requires c.txInfo == InfoMap(s) && Backed(s, c.blocks)
    ensures h in s.txs ==> GetTransaction(c, h) == Some((s.txs[h].tx, c.blocks[s.txs[h].blockHash]))
    ensures h in s.txs ==>
              && h in c.txInfo
              && c.txInfo[h] == TxInfo(s.txs[h].blockHash, s.txs[h].index, s.txs[h].number, s.txs[h].epoch)
    ensures h !in s.txs ==> GetTransaction(c, h) == None
  {
  }

  lemma {:induction false} NotAllSpent(s: State, op: OutPoint)
    requires Unspent(s, op)
    ensures !AllSpent(s, op.txHash)
  {
    assert op == OutPoint(op.txHash, op.index);
  }

  lemma {:induction false} EntryMeaning(s: State, h: Hash, i: nat)
    ensures h in CellMap(s) <==> h in s.txs && !AllSpent(s, h)
    ensures h in CellMap(s) ==> |CellMap(s)[h].dead| == |s.txs[h].tx.outputs|
    ensures h in CellMap(s) && i < |s.txs[h].tx.outputs| ==> (CellMap(s)[h].dead[i] <==> OutPoint(h, i) in s.spent)
  {
  }

  /** Live is answered for the created and unspent outputs, and only for those, with where it was committed. */
  lemma {:induction false} LiveExactly(s: State, c: Columns, op: OutPoint)
    requires c.cells == CellMap(s) && c.txInfo == InfoMap(s) && Backed(s, c.blocks)
    ensures CellAt(c, op).Live? <==> Unspent(s, op)
    ensures Unspent(s, op) ==>
              var r := s.txs[op.txHash];
              CellAt(c, op) == Live(r.tx.outputs[op.index], TxInfo(r.blockHash, r.index, r.number, r.epoch))
  {
    hide CellMap, InfoMap, Backed, GetTransaction, AllSpent;
    EntryMeaning(s, op.txHash, op.index);
    RecordedIsFound(s, c, op.txHash);
    assert op == OutPoint(op.txHash, op.index);
    if Unspent(s, op) { NotAllSpent(s, op); }
  }

  /** Dead is answered for a spent output as long as another one of its transaction is unspent. */
  lemma {:induction false} DeadExactly(s: State, c: Columns, op: OutPoint)
    requires c.cells == CellMap(s)
    ensures CellAt(c, op).Dead? <==>
            Created(s, op) && op in s.spent && exists i: nat :: Unspent(s, OutPoint(op.txHash, i))
  {
    hide CellMap, InfoMap, GetTransaction;
    EntryMeaning(s, op.txHash, op.index);
    assert op == OutPoint(op.txHash, op.index);
    if Created(s, op) && !AllSpent(s, op.txHash) {
      var i: nat :| i < |s.txs[op.txHash].tx.outputs| && OutPoint(op.txHash, i) !in s.spent;
      assert Unspent(s, OutPoint(op.txHash, i));
    }
  }

  // ---------------------------------------------------------------- the loops of the source

  /** `attach_block_cell`. */
  method AttachBlockCell(txn: StoreTransaction, b: Block)
    modifies txn
    ensures txn.cols == old(txn.cols).(cells := AttachTxs(old(txn.cols).cells, b, |b.txs|))
  {
    var c := txn.cols;
    for i := 0 to |b.txs|
      invariant txn.cols == c.(cells := AttachTxs(c.cells, b, i))
    {
      var tx := b.txs[i];
      ghost var start := txn.cols.cells;
      var ops := InputPts(tx);
      for k := 0 to |ops|
        invariant txn.cols == c.(cells := SpendAll(start, ops[..k]))
      {
        assert ops[..k + 1][..k] == ops[..k];
        var h := ops[k].txHash;
        if h in txn.cols.cells {
          var meta := SetDead(txn.cols.cells[h], ops[k].index, true);
          if AllDead(meta) {
            txn.cols := txn.cols.(cells := txn.cols.cells - {h});
          } else {
            txn.cols := txn.cols.(cells := txn.cols.cells[h := meta]);
          }
        }
      }
      assert ops[..|ops|] == ops;
      txn.cols := txn.cols.(cells := txn.cols.cells[tx.hash := NewMeta(b, tx, false)]);
    }
  }

  /** `detach_block_cell`: transactions in reverse, rebuilding entries that had been deleted. */
  method DetachBlockCell(txn: StoreTransaction, b: Block)
    modifies txn
    ensures txn.cols == old(txn.cols).(cells := DetachTxs(old(txn.cols), old(txn.cols).cells, b, 0))
  {
    var c := txn.cols;
    for i := |b.txs| downto 0
      invariant txn.cols == c.(cells := DetachTxs(c, c.cells, b, i))
    {
      var tx := b.txs[i];
      txn.cols := txn.cols.(cells := txn.cols.cells - {tx.hash});
      ghost var start := txn.cols.cells;
      var ops := InputPts(tx);
      for k := 0 to |ops|
        invariant txn.cols == c.(cells := UnspendAll(c, start, ops[..k]))
      {
        assert ops[..k + 1][..k] == ops[..k];
        var h := ops[k].txHash;
        if h in txn.cols.cells {
          txn.cols := txn.cols.(cells := txn.cols.cells[h := SetDead(txn.cols.cells[h], ops[k].index, false)]);
        } else {
          var found := GetTransaction(txn.cols, h);
          if found.Some? {
            var meta := NewMeta(found.value.1, found.value.0, true);
            txn.cols := txn.cols.(cells := txn.cols.cells[h := SetDead(meta, ops[k].index, false)]);
          }
        }
      }
      assert ops[..|ops|] == ops;
    }
  }
}
