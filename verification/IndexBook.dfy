/**
  What the lock-hash index is an index of: a book that scanning a chain fills, with every
  created cell and the first input that spent it. Genesis transactions are scanned like all
  others; a cell that one of them spent can be named by an input a second time.
 */
module IndexBook {
  import opened Types
  import opened Admission

  datatype CellOutput = CellOutput(capacity: nat, lock: Hash)

  datatype Cell = Cell(number: nat, output: CellOutput, dataLen: nat, cellbase: bool)

  /** The input that consumed a cell: block, transaction, position. */
  datatype Point = Point(number: nat, txHash: Hash, index: nat)

  datatype Book = Book(created: map<OutPoint, Cell>, spent: map<OutPoint, Point>)

  const BLANK: Book := Book(map[], map[])

  function CellOf(n: nat, tx: Tx, j: nat): Cell
    requires j < |tx.outputs|
  {
    Cell(n, CellOutput(tx.outputs[j].capacity, tx.outputs[j].lock), tx.outputs[j].dataLen, IsCellbase(tx))
  }

  /** How many inputs of a transaction spend something. */
  function SpendCount(tx: Tx): nat {
    if IsCellbase(tx) then 0 else |tx.inputs|
  }

  /** Only the first spend of a created cell counts. */
  function SpendOnce(s: Book, op: OutPoint, pt: Point): Book {
    if op in s.created && op !in s.spent then s.(spent := s.spent[op := pt]) else s
  }

  function BookInputs(s: Book, n: nat, tx: Tx, k: nat): Book
    requires k <= |tx.inputs|
  {
    if k == 0 then s else SpendOnce(BookInputs(s, n, tx, k - 1), tx.inputs[k - 1].previous, Point(n, tx.hash, k - 1))
  }

  function BookOutputs(s: Book, n: nat, tx: Tx, k: nat): Book
    requires k <= |tx.outputs|
  {
    if k == 0 then s else
    var t := BookOutputs(s, n, tx, k - 1);
    t.(created := t.created[OutPoint(tx.hash, k - 1) := CellOf(n, tx, k - 1)])
  }

  function BookTx(s: Book, n: nat, tx: Tx): Book {
    BookOutputs(BookInputs(s, n, tx, SpendCount(tx)), n, tx, |tx.outputs|)
  }

  function BookTxs(s: Book, b: Block, k: nat): Book
    requires k <= |b.txs|
  {
    if k == 0 then s else BookTx(BookTxs(s, b, k - 1), b.number, b.txs[k - 1])
  }

  function BookBlock(s: Book, b: Block): Book {
    BookTxs(s, b, |b.txs|)
  }

  /** Scanning a chain from its first block. */
  function Scan(p: seq<Block>): Book {
    if p == [] then BLANK else BookBlock(Scan(p[..|p| - 1]), p[|p| - 1])
  }

  // ---------------------------------------------------------------- chains that can be scanned

  /** The transaction creates cells that are new. */
  predicate TxFits(s: Book, tx: Tx) {
    forall op :: op in s.created ==> op.txHash != tx.hash
  }

  predicate TxsFit(s: Book, b: Block, k: nat)
    requires k <= |b.txs|
  {
    k == 0 || (TxsFit(s, b, k - 1) && TxFits(BookTxs(s, b, k - 1), b.txs[k - 1]))
  }

  /** Every input names a created cell, and a cell that is spent already only if it is one of those in `again`. */
  predicate InputsFit(s: Book, again: set<OutPoint>, b: Block) {
    forall i :: 0 <= i < |b.txs| ==> InputsFitAt(s, again, b, i)
  }

  predicate InputsFitAt(s: Book, again: set<OutPoint>, b: Block, i: nat)
    requires i < |b.txs|
  {
    var t, tx := BookTxs(s, b, i), b.txs[i];
    forall k :: 0 <= k < SpendCount(tx) ==>
      var op := tx.inputs[k].previous; op in t.created && (op in t.spent ==> op in again)
  }

  /** The cells that genesis transactions spend; the ledger does not count these spends. */
  function GenesisSpent(p: seq<Block>): set<OutPoint>
    requires p != []
  {
    Scan(p[..1]).spent.Keys
  }

  /** Chains of blocks in order, with new transactions only; after genesis, only what genesis spent is spent twice. */
  predicate ScanOk(p: seq<Block>) {
    p == [] ||
    var q, b := p[..|p| - 1], p[|p| - 1];
    && ScanOk(q) && Ordered(b) && TxsFit(Scan(q), b, |b.txs|)
    && (q != [] ==> InputsFit(Scan(q), GenesisSpent(q), b))
  }

  predicate BookOk(s: Book) {
    s.spent.Keys <= s.created.Keys
  }

  predicate SpendsOp(tx: Tx, k: nat, op: OutPoint)
    requires k <= |tx.inputs|
  {
    exists i :: 0 <= i < k && tx.inputs[i].previous == op
  }

  lemma {:induction false} BookInputsAre(s: Book, n: nat, tx: Tx, k: nat)
    requires k <= |tx.inputs|
    ensures var t := BookInputs(s, n, tx, k);
            && t.created == s.created
            && (forall op :: op in t.spent <==> op in s.spent || (op in s.created && SpendsOp(tx, k, op)))
            && (forall op :: op in s.spent ==> t.spent[op] == s.spent[op])
  {
    if k > 0 { BookInputsAre(s, n, tx, k - 1); }
  }

  lemma {:induction false} BookOutputsAre(s: Book, n: nat, tx: Tx, k: nat)
    requires k <= |tx.outputs| && forall op :: op in s.created ==> op.txHash != tx.hash
    ensures var t := BookOutputs(s, n, tx, k);
            && t.spent == s.spent
            && (forall op :: op in t.created <==> op in s.created || (op.txHash == tx.hash && op.index < k))
            && (forall op :: op in s.created ==> t.created[op] == s.created[op])
            && (forall i :: 0 <= i < k ==> t.created[OutPoint(tx.hash, i)] == CellOf(n, tx, i))
  {
    if k > 0 { BookOutputsAre(s, n, tx, k - 1); }
  }

  predicate Extends(s: Book, t: Book) {
    && (forall op :: op in s.created ==> op in t.created && t.created[op] == s.created[op])
    && (forall op :: op in s.spent ==> op in t.spent && t.spent[op] == s.spent[op])
  }

  lemma {:induction false} TxExtends(s: Book, n: nat, tx: Tx)
    requires TxFits(s, tx) && BookOk(s)
    ensures BookOk(BookTx(s, n, tx)) && Extends(s, BookTx(s, n, tx))
  {
    BookInputsAre(s, n, tx, SpendCount(tx));
    BookOutputsAre(BookInputs(s, n, tx, SpendCount(tx)), n, tx, |tx.outputs|);
  }

  lemma {:induction false} TxsExtend(s: Book, b: Block, j: nat, k: nat)
    requires j <= k <= |b.txs| && TxsFit(s, b, k) && BookOk(s)
    ensures TxsFit(s, b, j) && BookOk(BookTxs(s, b, j)) && BookOk(BookTxs(s, b, k))
    ensures Extends(BookTxs(s, b, j), BookTxs(s, b, k))
  {
    if j < k {
      TxsExtend(s, b, j, k - 1);
      TxExtends(BookTxs(s, b, k - 1), b.number, b.txs[k - 1]);
    } else if k > 0 {
      TxsExtend(s, b, k - 1, k - 1);
      TxExtends(BookTxs(s, b, k - 1), b.number, b.txs[k - 1]);
    }
  }

  lemma {:induction false} ScanPrefix(p: seq<Block>, i: nat)
    requires i <= |p| && ScanOk(p)
    ensures ScanOk(p[..i]) && BookOk(Scan(p[..i])) && BookOk(Scan(p)) && Extends(Scan(p[..i]), Scan(p))
  {
    if p != [] {
      var q, b := p[..|p| - 1], p[|p| - 1];
      if i < |p| {
        ScanPrefix(q, i);
        assert q[..i] == p[..i];
      } else {
        ScanPrefix(q, |q|);
        assert p[..i] == p;
      }
      TxsExtend(Scan(q), b, 0, |b.txs|);
    }
  }

  // ---------------------------------------------------------------- scanning a block again

  /** Creating a cell anew makes it unspent. */
  function CreateAgain(s: Book, op: OutPoint, cell: Cell): Book {
    Book(s.created[op := cell], s.spent - {op})
  }

  function ReOutputs(s: Book, n: nat, tx: Tx, k: nat): Book
    requires k <= |tx.outputs|
  {
    if k == 0 then s else CreateAgain(ReOutputs(s, n, tx, k - 1), OutPoint(tx.hash, k - 1), CellOf(n, tx, k - 1))
  }

  function ReTx(s: Book, n: nat, tx: Tx): Book {
    ReOutputs(BookInputs(s, n, tx, SpendCount(tx)), n, tx, |tx.outputs|)
  }

  function ReTxs(s: Book, b: Block, k: nat): Book
    requires k <= |b.txs|
  {
    if k == 0 then s else ReTx(ReTxs(s, b, k - 1), b.number, b.txs[k - 1])
  }

  /**
    The book halfway through scanning a block a second time: `s0` before the block, `s` after
    it, `t` as far as the second scan has come. A cell of the block is spent only as in `t`.
   */
  function Halfway(t: Book, s0: Book, s: Book): Book {
    Book(s.created, map op | op in s.spent && (op in t.created && op !in s0.created ==> op in t.spent) :: s.spent[op])
  }

  /** An input names no cell that is created only later. */
  predicate NoneLater(t: Book, s: Book, tx: Tx) {
    forall i :: 0 <= i < SpendCount(tx) ==> tx.inputs[i].previous in s.created ==> tx.inputs[i].previous in t.created
  }

  lemma {:induction false} ReInputsHalfway(t: Book, s0: Book, s: Book, n: nat, tx: Tx, k: nat)
    requires k <= SpendCount(tx) && NoneLater(t, s, tx) && Extends(BookInputs(t, n, tx, k), s)
    ensures BookInputs(Halfway(t, s0, s), n, tx, k) == Halfway(BookInputs(t, n, tx, k), s0, s)
  {
    if k > 0 {
      hide Halfway;
      BookInputsAre(t, n, tx, k - 1);
      BookInputsAre(t, n, tx, k);
      ReInputsHalfway(t, s0, s, n, tx, k - 1);
      HalfwaySpend(BookInputs(t, n, tx, k - 1), s0, s, tx.inputs[k - 1].previous, Point(n, tx.hash, k - 1));
    }
  }

  lemma {:induction false} HalfwaySpend(t: Book, s0: Book, s: Book, op: OutPoint, pt: Point)
    requires Extends(SpendOnce(t, op, pt), s) && (op in s.created ==> op in t.created)
    ensures SpendOnce(Halfway(t, s0, s), op, pt) == Halfway(SpendOnce(t, op, pt), s0, s)
  {
    var left, right := SpendOnce(Halfway(t, s0, s), op, pt).spent, Halfway(SpendOnce(t, op, pt), s0, s).spent;
    if op in t.created && op !in t.spent { assert op in SpendOnce(t, op, pt).spent; }
    forall o ensures (o in left <==> o in right) && (o in left ==> left[o] == right[o]) {
      assert o in t.spent ==> o in SpendOnce(t, op, pt).spent;
    }
    assert left == right;
  }

  lemma {:induction false} HalfwayCreate(t: Book, s0: Book, s: Book, op: OutPoint, cell: Cell)
    requires op !in s0.created && op !in t.spent && op in s.created && s.created[op] == cell
    ensures CreateAgain(Halfway(t, s0, s), op, cell) == Halfway(t.(created := t.created[op := cell]), s0, s)
  {
    var left := CreateAgain(Halfway(t, s0, s), op, cell).spent;
    var right := Halfway(t.(created := t.created[op := cell]), s0, s).spent;
    forall o ensures (o in left <==> o in right) && (o in left ==> left[o] == right[o]) {
    }
    assert left == right;
    assert s.created[op := cell] == s.created;
  }

  lemma {:induction false} ReOutputsHalfway(t: Book, s0: Book, s: Book, n: nat, tx: Tx, k: nat)
    requires k <= |tx.outputs| && BookOk(t) && (forall op :: op in t.created ==> op.txHash != tx.hash)
    requires Extends(s0, t) && Extends(BookOutputs(t, n, tx, k), s)
    ensures ReOutputs(Halfway(t, s0, s), n, tx, k) == Halfway(BookOutputs(t, n, tx, k), s0, s)
  {
    if k > 0 {
      BookOutputsAre(t, n, tx, k - 1);
      BookOutputsAre(t, n, tx, k);
      ReOutputsHalfway(t, s0, s, n, tx, k - 1);
      HalfwayCreate(BookOutputs(t, n, tx, k - 1), s0, s, OutPoint(tx.hash, k - 1), CellOf(n, tx, k - 1));
    }
  }

  lemma {:induction false} ReTxHalfway(t: Book, s0: Book, s: Book, n: nat, tx: Tx)
    requires TxFits(t, tx) && BookOk(t) && Extends(s0, t) && Extends(BookTx(t, n, tx), s) && NoneLater(t, s, tx)
    ensures ReTx(Halfway(t, s0, s), n, tx) == Halfway(BookTx(t, n, tx), s0, s)
  {
    var u := BookInputs(t, n, tx, SpendCount(tx));
    BookInputsAre(t, n, tx, SpendCount(tx));
    BookOutputsAre(u, n, tx, |tx.outputs|);
    ReInputsHalfway(t, s0, s, n, tx, SpendCount(tx));
    ReOutputsHalfway(u, s0, s, n, tx, |tx.outputs|);
  }

  /** What a block creates from transaction k on are outputs of those transactions. */
  lemma {:induction false} CreatedLater(s: Book, b: Block, k: nat, n: nat, op: OutPoint)
    requires k <= n <= |b.txs| && TxsFit(s, b, n) && BookOk(s)
    requires op in BookTxs(s, b, n).created && op !in BookTxs(s, b, k).created
    ensures exists j :: k <= j < n && b.txs[j].hash == op.txHash
  {
    var t, tx := BookTxs(s, b, n - 1), b.txs[n - 1];
    BookInputsAre(t, b.number, tx, SpendCount(tx));
    BookOutputsAre(BookInputs(t, b.number, tx, SpendCount(tx)), b.number, tx, |tx.outputs|);
    if op in t.created { CreatedLater(s, b, k, n - 1, op); }
  }

  lemma {:induction false} OrderedInputs(s: Book, b: Block, k: nat)
    requires k < |b.txs| && Ordered(b) && TxsFit(s, b, |b.txs|) && BookOk(s)
    ensures NoneLater(BookTxs(s, b, k), BookBlock(s, b), b.txs[k])
  {
    var tx := b.txs[k];
    forall i | 0 <= i < SpendCount(tx) && tx.inputs[i].previous in BookBlock(s, b).created
      ensures tx.inputs[i].previous in BookTxs(s, b, k).created
    {
      var op := tx.inputs[i].previous;
      assert OrderedAt(b, k) && InputPts(tx)[i] == op;
      if op !in BookTxs(s, b, k).created { CreatedLater(s, b, k, |b.txs|, op); }
    }
  }

  lemma {:induction false} ReTxsHalfway(s0: Book, b: Block, k: nat)
    requires k <= |b.txs| && TxsFit(s0, b, |b.txs|) && BookOk(s0) && Ordered(b)
    ensures ReTxs(BookBlock(s0, b), b, k) == Halfway(BookTxs(s0, b, k), s0, BookBlock(s0, b))
  {
    var s := BookBlock(s0, b);
    TxsExtend(s0, b, k, |b.txs|);
    TxsExtend(s0, b, 0, k);
    if k == 0 {
      assert Halfway(s0, s0, s).spent == s.spent;
    } else {
      hide BookTx, ReTx, Halfway, Extends, Ordered, NoneLater;
      TxsExtend(s0, b, 0, k - 1);
      ReTxsHalfway(s0, b, k - 1);
      OrderedInputs(s0, b, k - 1);
      ReTxHalfway(BookTxs(s0, b, k - 1), s0, s, b.number, b.txs[k - 1]);
    }
  }

  /** Scanning the last block a second time changes nothing. */
  lemma {:induction false} ScanTwice(s0: Book, b: Block)
    requires TxsFit(s0, b, |b.txs|) && BookOk(s0) && Ordered(b)
    ensures ReTxs(BookBlock(s0, b), b, |b.txs|) == BookBlock(s0, b)
  {
    var s := BookBlock(s0, b);
    ReTxsHalfway(s0, b, |b.txs|);
    assert Halfway(s, s0, s).spent == s.spent;
  }

  // ---------------------------------------------------------------- scanning a block the first time

  lemma {:induction false} ReOutputsFirst(s: Book, n: nat, tx: Tx, k: nat)
    requires k <= |tx.outputs| && BookOk(s) && forall op :: op in s.created ==> op.txHash != tx.hash
    ensures ReOutputs(s, n, tx, k) == BookOutputs(s, n, tx, k)
  {
    if k > 0 {
      ReOutputsFirst(s, n, tx, k - 1);
      BookOutputsAre(s, n, tx, k - 1);
      var t := BookOutputs(s, n, tx, k - 1);
      assert t.spent - {OutPoint(tx.hash, k - 1)} == t.spent;
    }
  }

  lemma {:induction false} ScanFirst(s: Book, b: Block, k: nat)
    requires k <= |b.txs| && TxsFit(s, b, k) && BookOk(s)
    ensures ReTxs(s, b, k) == BookTxs(s, b, k)
  {
    if k > 0 {
      var t, tx := BookTxs(s, b, k - 1), b.txs[k - 1];
      ScanFirst(s, b, k - 1);
      TxsExtend(s, b, 0, k - 1);
      BookInputsAre(t, b.number, tx, SpendCount(tx));
      ReOutputsFirst(BookInputs(t, b.number, tx, SpendCount(tx)), b.number, tx, |tx.outputs|);
    }
  }
}
