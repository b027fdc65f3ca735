/**
  The chain store: one column map per key space, a transaction that works on its own copy of
  the columns, and the index writes of attaching and detaching a block.
 */
module Store {
  import opened Types
  import opened Ledger

  datatype Columns = Columns(
    blocks: map<Hash, Block>,
    exts: map<Hash, BlockExt>,
    hashOf: map<nat, Hash>,
    numberOf: map<Hash, nat>,
    txInfo: map<Hash, TxInfo>,
    uncles: map<Hash, Uncle>,
    cells: map<Hash, Meta>,
    tip: Hash)

  /** `get_transaction`: the committed transaction and the block that holds it. */
  function GetTransaction(c: Columns, h: Hash): Option<(Tx, Block)> {
    if h in c.txInfo && c.txInfo[h].blockHash in c.blocks &&
       c.txInfo[h].index < |c.blocks[c.txInfo[h].blockHash].txs|
    then Some((c.blocks[c.txInfo[h].blockHash].txs[c.txInfo[h].index], c.blocks[c.txInfo[h].blockHash]))
    else None
  }

  function InfoAt(b: Block, k: nat): TxInfo {
    TxInfo(b.hash, k, b.number, b.epoch)
  }

  function PutInfos(m: map<Hash, TxInfo>, b: Block, k: nat): map<Hash, TxInfo>
    requires k <= |b.txs|
  {
    if k == 0 then m else PutInfos(m, b, k - 1)[b.txs[k - 1].hash := InfoAt(b, k - 1)]
  }

  function PutUncles(m: map<Hash, Uncle>, us: seq<Uncle>): map<Hash, Uncle> {
    if us == [] then m else PutUncles(m, us[..|us| - 1])[us[|us| - 1].hash := us[|us| - 1]]
  }

  function UncleHashes(b: Block): set<Hash> {
    set i | 0 <= i < |b.uncles| :: b.uncles[i].hash
  }

  /** The columns after `attach_block`. */
  function AttachIndex(c: Columns, b: Block): Columns {
    c.(txInfo := PutInfos(c.txInfo, b, |b.txs|),
       hashOf := c.hashOf[b.number := b.hash],
       uncles := PutUncles(c.uncles, b.uncles),
       numberOf := c.numberOf[b.hash := b.number])
  }

  /** The columns after `detach_block`. */
  function DetachIndex(c: Columns, b: Block): Columns {
    c.(txInfo := c.txInfo - TxHashes(b),
       hashOf := c.hashOf - {b.number},
       uncles := c.uncles - UncleHashes(b),
       numberOf := c.numberOf - {b.hash})
  }

  /** A database transaction: reads and writes its own columns until they are committed. */
  class StoreTransaction {
    var cols: Columns

    constructor (c: Columns)
      ensures cols == c
    {
      cols := c;
    }

    method InsertBlock(b: Block)
      modifies this
      ensures cols == old(cols).(blocks := old(cols).blocks[b.hash := b])
    {
      cols := cols.(blocks := cols.blocks[b.hash := b]);
    }

    method InsertBlockExt(h: Hash, ext: BlockExt)
      modifies this
      ensures cols == old(cols).(exts := old(cols).exts[h := ext])
    {
      cols := cols.(exts := cols.exts[h := ext]);
    }

    method AttachBlock(b: Block)
      modifies this
      ensures cols == AttachIndex(old(cols), b)
    {
      for i := 0 to |b.txs|
        invariant cols == old(cols).(txInfo := PutInfos(old(cols).txInfo, b, i))
      {
        cols := cols.(txInfo := cols.txInfo[b.txs[i].hash := InfoAt(b, i)]);
      }
      cols := cols.(hashOf := cols.hashOf[b.number := b.hash]);
      ghost var mid := cols;
      for i := 0 to |b.uncles|
        invariant cols == mid.(uncles := PutUncles(mid.uncles, b.uncles[..i]))
      {
        assert b.uncles[..i + 1][..i] == b.uncles[..i];
        cols := cols.(uncles := cols.uncles[b.uncles[i].hash := b.uncles[i]]);
      }
      assert b.uncles[..|b.uncles|] == b.uncles;
      cols := cols.(numberOf := cols.numberOf[b.hash := b.number]);
    }

    method DetachBlock(b: Block)
      modifies this
      ensures cols == DetachIndex(old(cols), b)
    {
      for i := 0 to |b.txs|
        invariant cols == old(cols).(txInfo := old(cols).txInfo - HashesUpTo(b, i))
      {
        assert HashesUpTo(b, i + 1) == HashesUpTo(b, i) + {b.txs[i].hash};
        cols := cols.(txInfo := cols.txInfo - {b.txs[i].hash});
      }
      ghost var mid := cols;
      for i := 0 to |b.uncles|
        invariant cols == mid.(uncles := mid.uncles - set j | 0 <= j < i :: b.uncles[j].hash)
      {
        assert (set j | 0 <= j < i + 1 :: b.uncles[j].hash) ==
               (set j | 0 <= j < i :: b.uncles[j].hash) + {b.uncles[i].hash};
        cols := cols.(uncles := cols.uncles - {b.uncles[i].hash});
      }
      cols := cols.(hashOf := cols.hashOf - {b.number});
      cols := cols.(numberOf := cols.numberOf - {b.hash});
    }
  }
}
