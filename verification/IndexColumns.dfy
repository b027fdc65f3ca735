/**
  The indexer's columns and what attaching or detaching one block does to them, proved against
  the book of the scanned chain, lock by lock.
 */
module IndexColumns {
  import opened Types
  import opened Store
  import opened IndexBook
  import opened Admission

  datatype Key = Key(lock: Hash, number: nat, op: OutPoint)

  datatype LiveCell = LiveCell(output: CellOutput, dataLen: nat, cellbase: bool)

  /** The cell output is kept after the live cell is gone, for a later detach. */
  datatype Entry = Entry(lock: Hash, number: nat, output: Option<CellOutput>)

  datatype IndexState = IndexState(number: nat, hash: Hash)

  datatype Index = Index(
    live: map<Key, LiveCell>,
    txs: map<Key, Option<Point>>,
    ops: map<OutPoint, Entry>,
    states: map<Hash, IndexState>)

  // ---------------------------------------------------------------- the writes

  function Generate(x: Index, key: Key, cell: LiveCell): Index {
    x.(live := x.live[key := cell], txs := x.txs[key := None],
       ops := x.ops[key.op := Entry(key.lock, key.number, Some(cell.output))])
  }

  function Consume(x: Index, key: Key, pt: Point): Index {
    if key in x.live
    then x.(live := x.live - {key}, txs := x.txs[key := Some(pt)],
            ops := x.ops[key.op := Entry(key.lock, key.number, Some(x.live[key].output))])
    else x
  }

  function AttachInput(x: Index, locks: set<Hash>, op: OutPoint, pt: Point): Index {
    if op in x.ops && x.ops[op].lock in locks then Consume(x, Key(x.ops[op].lock, x.ops[op].number, op), pt) else x
  }

  function AttachInputs(x: Index, locks: set<Hash>, n: nat, tx: Tx, k: nat): Index
    requires k <= |tx.inputs|
  {
    if k == 0 then x else
    AttachInput(AttachInputs(x, locks, n, tx, k - 1), locks, tx.inputs[k - 1].previous, Point(n, tx.hash, k - 1))
  }

  function AttachOutput(x: Index, locks: set<Hash>, n: nat, tx: Tx, j: nat): Index
    requires j < |tx.outputs|
  {
    var cell := CellOf(n, tx, j);
    if cell.output.lock in locks
    then Generate(x, Key(cell.output.lock, n, OutPoint(tx.hash, j)), LiveCell(cell.output, cell.dataLen, cell.cellbase))
    else x
  }

  function AttachOutputs(x: Index, locks: set<Hash>, n: nat, tx: Tx, k: nat): Index
    requires k <= |tx.outputs|
  {
    if k == 0 then x else AttachOutput(AttachOutputs(x, locks, n, tx, k - 1), locks, n, tx, k - 1)
  }

  function AttachTx(x: Index, locks: set<Hash>, n: nat, tx: Tx): Index {
    AttachOutputs(AttachInputs(x, locks, n, tx, SpendCount(tx)), locks, n, tx, |tx.outputs|)
  }

  function AttachTxs(x: Index, locks: set<Hash>, b: Block, k: nat): Index
    requires k <= |b.txs|
  {
    if k == 0 then x else AttachTx(AttachTxs(x, locks, b, k - 1), locks, b.number, b.txs[k - 1])
  }

  function DetachOutput(x: Index, locks: set<Hash>, n: nat, tx: Tx, j: nat): Index
    requires j < |tx.outputs|
  {
    var op, lock := OutPoint(tx.hash, j), tx.outputs[j].lock;
    if lock in locks
    then x.(live := x.live - {Key(lock, n, op)}, txs := x.txs - {Key(lock, n, op)}, ops := x.ops - {op})
    else x
  }

  function DetachOutputs(x: Index, locks: set<Hash>, n: nat, tx: Tx, k: nat): Index
    requires k <= |tx.outputs|
  {
    if k == 0 then x else DetachOutput(DetachOutputs(x, locks, n, tx, k - 1), locks, n, tx, k - 1)
  }

  /** An input is given back only if the chain store still knows the transaction that created the cell. */
  function DetachInput(x: Index, locks: set<Hash>, c: Columns, op: OutPoint): Index {
    if op in x.ops && x.ops[op].lock in locks && x.ops[op].output.Some? && GetTransaction(c, op.txHash).Some? then
      var e, tx := x.ops[op], GetTransaction(c, op.txHash).value.0;
      if op.index < |tx.outputs|
      then Generate(x, Key(e.lock, e.number, op),
                    LiveCell(e.output.value, tx.outputs[op.index].dataLen, IsCellbase(tx)))
      else x
    else x
  }

  function DetachInputs(x: Index, locks: set<Hash>, c: Columns, tx: Tx, k: nat): Index
    requires k <= |tx.inputs|
  {
    if k == 0 then x else DetachInput(DetachInputs(x, locks, c, tx, k - 1), locks, c, tx.inputs[k - 1].previous)
  }

  function DetachTx(x: Index, locks: set<Hash>, c: Columns, n: nat, tx: Tx): Index {
    DetachInputs(DetachOutputs(x, locks, n, tx, |tx.outputs|), locks, c, tx, SpendCount(tx))
  }

  /** Detaching the transactions from the last one down to position k. */
  function DetachTxs(x: Index, locks: set<Hash>, c: Columns, b: Block, k: nat): Index
    requires k <= |b.txs|
    decreases |b.txs| - k
  {
    if k == |b.txs| then x else DetachTx(DetachTxs(x, locks, c, b, k + 1), locks, c, b.number, b.txs[k])
  }

  // ---------------------------------------------------------------- what a lock's columns mean

  /** The outputs behind every transaction hash; that it is a map says hashes do not collide. */
  type Outputs = map<Hash, seq<Output>>

  predicate Says(u: Outputs, b: Block) {
    forall i :: 0 <= i < |b.txs| ==> SaysTx(u, b.txs[i])
  }

  predicate SaysTx(u: Outputs, tx: Tx) {
    tx.hash in u && u[tx.hash] == tx.outputs
  }

  predicate Known(u: Outputs, op: OutPoint) {
    op.txHash in u && op.index < |u[op.txHash]|
  }

  function LockOf(u: Outputs, op: OutPoint): Hash
    requires Known(u, op)
  {
    u[op.txHash][op.index].lock
  }

  predicate OpsKnown(u: Outputs, x: Index) {
    && (forall op :: op in x.ops ==> Known(u, op) && x.ops[op].lock == LockOf(u, op))
    && (forall key :: key in x.live ==> Known(u, key.op) && key.lock == LockOf(u, key.op))
  }

  predicate BookKnown(u: Outputs, s: Book) {
    forall op :: op in s.created ==> Known(u, op) && s.created[op].output.lock == LockOf(u, op)
  }

  function KeyOf(s: Book, op: OutPoint): Key
    requires op in s.created
  {
    Key(s.created[op].output.lock, s.created[op].number, op)
  }

  predicate Owns(s: Book, key: Key) {
    key.op in s.created && KeyOf(s, key.op) == key
  }

  function Spender(s: Book, op: OutPoint): Option<Point> {
    if op in s.spent then Some(s.spent[op]) else None
  }

  /** The rows of a created cell; of a doubtful one only the out-point row, and the output of a live row, is claimed. */
  predicate RowsOf(x: Index, s: Book, doubtful: set<OutPoint>, op: OutPoint)
    requires op in s.created
  {
    var cell, key := s.created[op], KeyOf(s, op);
    && op in x.ops && x.ops[op] == Entry(key.lock, key.number, Some(cell.output))
    && (key in x.live ==> x.live[key].output == cell.output)
    && (op !in doubtful ==>
          && (key in x.live <==> op !in s.spent)
          && (key in x.live ==> x.live[key] == LiveCell(cell.output, cell.dataLen, cell.cellbase))
          && key in x.txs && x.txs[key] == Spender(s, op))
  }

  /** The rows of one lock are those of the book, except that doubtful cells may be missing. */
  predicate Matches(x: Index, lock: Hash, s: Book, doubtful: set<OutPoint>) {
    && (forall key :: key in x.live && key.lock == lock ==> Owns(s, key))
    && (forall key :: key in x.txs && key.lock == lock ==> Owns(s, key))
    && (forall op :: op in s.created && s.created[op].output.lock == lock ==> RowsOf(x, s, doubtful, op))
  }

  // ---------------------------------------------------------------- other locks are left alone

  ghost predicate Untouched(x: Index, y: Index, lock: Hash) {
    && (forall key: Key :: key.lock == lock ==> Same(x.live, y.live, key))
    && (forall key: Key :: key.lock == lock ==> Same(x.txs, y.txs, key))
    && (forall op :: op in x.ops && x.ops[op].lock == lock ==> op in y.ops && y.ops[op] == x.ops[op])
    && (forall op :: op in y.ops && y.ops[op].lock == lock ==> op in x.ops && x.ops[op] == y.ops[op])
  }

  predicate Same<K, V(==)>(m: map<K, V>, m': map<K, V>, k: K) {
    (k in m <==> k in m') && (k in m ==> m[k] == m'[k])
  }

  /** From x to y only rows of the given locks changed, and the out-point rows stay truthful. */
  ghost predicate Within(u: Outputs, locks: set<Hash>, x: Index, y: Index) {
    && OpsKnown(u, y) && y.states == x.states
    && forall lock :: lock !in locks ==> Untouched(x, y, lock)
  }

  lemma {:induction false} MatchesFrame(x: Index, y: Index, lock: Hash, s: Book, doubtful: set<OutPoint>)
    requires Matches(x, lock, s, doubtful) && Untouched(x, y, lock)
    ensures Matches(y, lock, s, doubtful)
  {
    forall op | op in s.created && s.created[op].output.lock == lock ensures RowsOf(y, s, doubtful, op) {
      assert RowsOf(x, s, doubtful, op);
    }
  }

  lemma {:induction false} WithinTwice(u: Outputs, locks: set<Hash>, x: Index, y: Index, z: Index)
    requires Within(u, locks, x, y) && Within(u, locks, y, z)
    ensures Within(u, locks, x, z)
  {
    forall lock | lock !in locks ensures Untouched(x, z, lock) {
      assert Untouched(x, y, lock) && Untouched(y, z, lock);
    }
  }

  lemma {:induction false} GenerateWithin(u: Outputs, locks: set<Hash>, x: Index, key: Key, cell: LiveCell)
    requires OpsKnown(u, x) && key.lock in locks && Known(u, key.op) && key.lock == LockOf(u, key.op)
    ensures Within(u, locks, x, Generate(x, key, cell))
  {
    forall lock | lock !in locks ensures Untouched(x, Generate(x, key, cell), lock) {
      GenerateLeaves(u, x, key, cell, lock);
    }
    hide Untouched;
  }

  lemma {:induction false} GenerateLeaves(u: Outputs, x: Index, key: Key, cell: LiveCell, lock: Hash)
    requires OpsKnown(u, x) && key.lock != lock && Known(u, key.op) && key.lock == LockOf(u, key.op)
    ensures Untouched(x, Generate(x, key, cell), lock)
  {
  }

  lemma {:induction false} AttachInputWithin(u: Outputs, locks: set<Hash>, x: Index, op: OutPoint, pt: Point)
    requires OpsKnown(u, x)
    ensures Within(u, locks, x, AttachInput(x, locks, op, pt))
  {
    forall lock | lock !in locks ensures Untouched(x, AttachInput(x, locks, op, pt), lock) {
      AttachInputLeaves(x, locks, op, pt, lock);
    }
    hide Untouched;
  }

  lemma {:induction false} AttachInputLeaves(x: Index, locks: set<Hash>, op: OutPoint, pt: Point, lock: Hash)
    requires lock !in locks
    ensures Untouched(x, AttachInput(x, locks, op, pt), lock)
  {
  }

  lemma {:induction false} DetachOutputWithin(u: Outputs, locks: set<Hash>, x: Index, n: nat, tx: Tx, j: nat)
    requires OpsKnown(u, x) && SaysTx(u, tx) && j < |tx.outputs|
    ensures Within(u, locks, x, DetachOutput(x, locks, n, tx, j))
  {
    forall lock | lock !in locks ensures Untouched(x, DetachOutput(x, locks, n, tx, j), lock) {
      DetachOutputLeaves(u, x, locks, n, tx, j, lock);
    }
    hide Untouched;
  }

  lemma {:induction false} DetachOutputLeaves(u: Outputs, x: Index, locks: set<Hash>, n: nat, tx: Tx, j: nat,
                                              lock: Hash)
    requires OpsKnown(u, x) && SaysTx(u, tx) && j < |tx.outputs| && lock !in locks
    ensures Untouched(x, DetachOutput(x, locks, n, tx, j), lock)
  {
  }

  lemma {:induction false} DetachInputWithin(u: Outputs, locks: set<Hash>, x: Index, c: Columns, op: OutPoint)
    requires OpsKnown(u, x)
    ensures Within(u, locks, x, DetachInput(x, locks, c, op))
  {
    hide GetTransaction, Generate, IsCellbase;
    var r := GetTransaction(c, op.txHash);
    if op in x.ops && x.ops[op].lock in locks && x.ops[op].output.Some? && r.Some? && op.index < |r.value.0.outputs| {
      var e, tx := x.ops[op], r.value.0;
      GenerateWithin(u, locks, x, Key(e.lock, e.number, op),
                     LiveCell(e.output.value, tx.outputs[op.index].dataLen, IsCellbase(tx)));
    }
  }

  lemma {:induction false} AttachInputsWithin(u: Outputs, locks: set<Hash>, x: Index, n: nat, tx: Tx, k: nat)
    requires OpsKnown(u, x) && k <= |tx.inputs|
    ensures Within(u, locks, x, AttachInputs(x, locks, n, tx, k))
  {
    if k > 0 {
      hide AttachInput, Untouched;
      AttachInputsWithin(u, locks, x, n, tx, k - 1);
      var y := AttachInputs(x, locks, n, tx, k - 1);
      AttachInputWithin(u, locks, y, tx.inputs[k - 1].previous, Point(n, tx.hash, k - 1));
      WithinTwice(u, locks, x, y, AttachInputs(x, locks, n, tx, k));
    }
  }

  lemma {:induction false} AttachOutputsWithin(u: Outputs, locks: set<Hash>, x: Index, n: nat, tx: Tx, k: nat)
    requires OpsKnown(u, x) && SaysTx(u, tx) && k <= |tx.outputs|
    ensures Within(u, locks, x, AttachOutputs(x, locks, n, tx, k))
  {
    if k > 0 {
      hide Generate, Untouched;
      AttachOutputsWithin(u, locks, x, n, tx, k - 1);
      var y, cell := AttachOutputs(x, locks, n, tx, k - 1), CellOf(n, tx, k - 1);
      if cell.output.lock in locks {
        GenerateWithin(u, locks, y, Key(cell.output.lock, n, OutPoint(tx.hash, k - 1)),
                       LiveCell(cell.output, cell.dataLen, cell.cellbase));
        WithinTwice(u, locks, x, y, AttachOutputs(x, locks, n, tx, k));
      }
    }
  }

  lemma {:induction false} AttachWithin(u: Outputs, locks: set<Hash>, x: Index, b: Block, k: nat)
    requires OpsKnown(u, x) && Says(u, b) && k <= |b.txs|
    ensures Within(u, locks, x, AttachTxs(x, locks, b, k))
  {
    if k > 0 {
      hide AttachInputs, AttachOutputs, Untouched;
      AttachWithin(u, locks, x, b, k - 1);
      var y, tx := AttachTxs(x, locks, b, k - 1), b.txs[k - 1];
      assert SaysTx(u, tx);
      var z := AttachInputs(y, locks, b.number, tx, SpendCount(tx));
      AttachInputsWithin(u, locks, y, b.number, tx, SpendCount(tx));
      WithinTwice(u, locks, x, y, z);
      AttachOutputsWithin(u, locks, z, b.number, tx, |tx.outputs|);
      WithinTwice(u, locks, x, z, AttachTxs(x, locks, b, k));
    }
  }

  lemma {:induction false} DetachOutputsWithin(u: Outputs, locks: set<Hash>, x: Index, n: nat, tx: Tx, k: nat)
    requires OpsKnown(u, x) && SaysTx(u, tx) && k <= |tx.outputs|
    ensures Within(u, locks, x, DetachOutputs(x, locks, n, tx, k))
  {
    if k > 0 {
      hide DetachOutput, Untouched;
      DetachOutputsWithin(u, locks, x, n, tx, k - 1);
      var y := DetachOutputs(x, locks, n, tx, k - 1);
      DetachOutputWithin(u, locks, y, n, tx, k - 1);
      WithinTwice(u, locks, x, y, DetachOutputs(x, locks, n, tx, k));
    }
  }

  lemma {:induction false} DetachInputsWithin(u: Outputs, locks: set<Hash>, x: Index, c: Columns, tx: Tx, k: nat)
    requires OpsKnown(u, x) && k <= |tx.inputs|
    ensures Within(u, locks, x, DetachInputs(x, locks, c, tx, k))
  {
    if k > 0 {
      hide DetachInput, Untouched;
      DetachInputsWithin(u, locks, x, c, tx, k - 1);
      var y := DetachInputs(x, locks, c, tx, k - 1);
      DetachInputWithin(u, locks, y, c, tx.inputs[k - 1].previous);
      WithinTwice(u, locks, x, y, DetachInputs(x, locks, c, tx, k));
    }
  }

  lemma {:induction false} DetachWithin(u: Outputs, locks: set<Hash>, x: Index, c: Columns, b: Block, k: nat)
    requires OpsKnown(u, x) && Says(u, b) && k <= |b.txs|
    ensures Within(u, locks, x, DetachTxs(x, locks, c, b, k))
    decreases |b.txs| - k
  {
    if k < |b.txs| {
      hide DetachInputs, DetachOutputs, Untouched;
      DetachWithin(u, locks, x, c, b, k + 1);
      var y, tx := DetachTxs(x, locks, c, b, k + 1), b.txs[k];
      assert SaysTx(u, tx);
      var z := DetachOutputs(y, locks, b.number, tx, |tx.outputs|);
      DetachOutputsWithin(u, locks, y, b.number, tx, |tx.outputs|);
      WithinTwice(u, locks, x, y, z);
      DetachInputsWithin(u, locks, z, c, tx, SpendCount(tx));
      WithinTwice(u, locks, x, z, DetachTxs(x, locks, c, b, k));
    }
  }

  // ---------------------------------------------------------------- attaching follows the book

  /** One lock's point of view: a write about another lock's cell does not concern it. */
  lemma {:induction false} OthersInput(u: Outputs, x: Index, lock: Hash, locks: set<Hash>, op: OutPoint, pt: Point)
    requires OpsKnown(u, x) && Known(u, op) && LockOf(u, op) != lock
    ensures Untouched(x, AttachInput(x, locks, op, pt), lock)
  {
  }

  lemma {:induction false} OwnInput(x: Index, lock: Hash, s: Book, doubtful: set<OutPoint>, op: OutPoint,
                                    pt: Point)
    requires Matches(x, lock, s, doubtful) && op in s.created && s.created[op].output.lock == lock
    ensures Matches(Consume(x, KeyOf(s, op), pt), lock, SpendOnce(s, op, pt), doubtful)
  {
    var y, t := Consume(x, KeyOf(s, op), pt), SpendOnce(s, op, pt);
    assert RowsOf(x, s, doubtful, op);
    forall o | o in t.created && t.created[o].output.lock == lock ensures RowsOf(y, t, doubtful, o) {
      assert RowsOf(x, s, doubtful, o);
    }
    forall key | key in y.txs && key.lock == lock ensures Owns(t, key) {
      assert key in x.txs ==> Owns(s, key);
    }
    forall key | key in y.live && key.lock == lock ensures Owns(t, key) {
      assert Owns(s, key);
    }
  }

  /** An input that names no cell of the book finds no row of this lock to consume. */
  lemma {:induction false} UnknownInput(x: Index, lock: Hash, s: Book, doubtful: set<OutPoint>, locks: set<Hash>,
                                        op: OutPoint, pt: Point)
    requires Matches(x, lock, s, doubtful) && op !in s.created
    ensures Untouched(x, AttachInput(x, locks, op, pt), lock)
  {
    if op in x.ops && x.ops[op].lock == lock {
      var key := Key(lock, x.ops[op].number, op);
      assert key in x.live ==> Owns(s, key);
    }
  }

  lemma {:induction false} SpendStep(u: Outputs, x: Index, lock: Hash, s: Book, doubtful: set<OutPoint>,
                                     locks: set<Hash>, op: OutPoint, pt: Point)
    requires Matches(x, lock, s, doubtful) && OpsKnown(u, x) && BookKnown(u, s) && lock in locks
    ensures Matches(AttachInput(x, locks, op, pt), lock, SpendOnce(s, op, pt), doubtful)
  {
    var y := AttachInput(x, locks, op, pt);
    if op !in s.created {
      UnknownInput(x, lock, s, doubtful, locks, op, pt);
      MatchesFrame(x, y, lock, s, doubtful);
    } else if s.created[op].output.lock == lock {
      assert RowsOf(x, s, doubtful, op);
      OwnInput(x, lock, s, doubtful, op, pt);
    } else {
      OthersInput(u, x, lock, locks, op, pt);
      MatchesFrame(x, y, lock, s, doubtful);
      SameRows(y, lock, s, SpendOnce(s, op, pt), doubtful);
    }
  }

  /** Two books that agree on this lock: the same cells, and the same spends of its own cells, if not doubtful. */
  predicate SameForLock(s: Book, t: Book, lock: Hash, doubtful: set<OutPoint>) {
    && s.created == t.created
    && forall op :: op in s.created && s.created[op].output.lock == lock && op !in doubtful ==>
         Same(s.spent, t.spent, op)
  }

  lemma {:induction false} SameRows(x: Index, lock: Hash, s: Book, t: Book, doubtful: set<OutPoint>)
    requires Matches(x, lock, s, doubtful) && SameForLock(s, t, lock, doubtful)
    ensures Matches(x, lock, t, doubtful)
  {
    forall op | op in t.created && t.created[op].output.lock == lock ensures RowsOf(x, t, doubtful, op) {
      assert RowsOf(x, s, doubtful, op) && (op !in doubtful ==> Same(s.spent, t.spent, op));
    }
    forall key | key in x.txs && key.lock == lock ensures Owns(t, key) { assert Owns(s, key); }
    forall key | key in x.live && key.lock == lock ensures Owns(t, key) { assert Owns(s, key); }
  }

  /** Writing an output makes its rows right, whatever they were. */
  lemma {:induction false} CreateStep(u: Outputs, x: Index, lock: Hash, s: Book, doubtful: set<OutPoint>,
                                      locks: set<Hash>, n: nat, tx: Tx, j: nat)
    requires Matches(x, lock, s, doubtful) && OpsKnown(u, x) && BookKnown(u, s) && lock in locks && SaysTx(u, tx)
    requires j < |tx.outputs|
    requires OutPoint(tx.hash, j) in s.created ==> s.created[OutPoint(tx.hash, j)].number == n
    ensures var op := OutPoint(tx.hash, j);
            && Matches(AttachOutput(x, locks, n, tx, j), lock, CreateAgain(s, op, CellOf(n, tx, j)), doubtful - {op})
            && BookKnown(u, CreateAgain(s, op, CellOf(n, tx, j)))
  {
    var op, cell := OutPoint(tx.hash, j), CellOf(n, tx, j);
    var y, t, sure := AttachOutput(x, locks, n, tx, j), CreateAgain(s, op, cell), doubtful - {op};
    forall o | o in t.created && t.created[o].output.lock == lock ensures RowsOf(y, t, sure, o) {
      if o != op { assert RowsOf(x, s, doubtful, o); }
    }
    forall key | key in y.txs && key.lock == lock ensures Owns(t, key) {
      if key in x.txs { assert Owns(s, key); }
    }
    forall key | key in y.live && key.lock == lock ensures Owns(t, key) {
      if key in x.live { assert Owns(s, key); }
    }
  }

  lemma {:induction false} AttachInputsKnown(u: Outputs, locks: set<Hash>, x: Index, n: nat, tx: Tx, k: nat)
    requires OpsKnown(u, x) && k <= |tx.inputs|
    ensures OpsKnown(u, AttachInputs(x, locks, n, tx, k))
  {
    AttachInputsWithin(u, locks, x, n, tx, k);
  }

  lemma {:induction false} BookKnownFrame(u: Outputs, s: Book, t: Book)
    requires BookKnown(u, s) && t.created == s.created
    ensures BookKnown(u, t)
  {
  }

  lemma {:induction false} AttachInputsMatch(u: Outputs, x: Index, lock: Hash, s: Book, doubtful: set<OutPoint>,
                                             locks: set<Hash>, n: nat, tx: Tx, k: nat)
    requires Matches(x, lock, s, doubtful) && OpsKnown(u, x) && BookKnown(u, s) && lock in locks && k <= |tx.inputs|
    ensures Matches(AttachInputs(x, locks, n, tx, k), lock, BookInputs(s, n, tx, k), doubtful)
    ensures BookInputs(s, n, tx, k).created == s.created && OpsKnown(u, AttachInputs(x, locks, n, tx, k))
  {
    hide Matches, AttachInput, OpsKnown, BookKnown;
    AttachInputsKnown(u, locks, x, n, tx, k);
    if k > 0 {
      AttachInputsMatch(u, x, lock, s, doubtful, locks, n, tx, k - 1);
      BookKnownFrame(u, s, BookInputs(s, n, tx, k - 1));
      SpendStep(u, AttachInputs(x, locks, n, tx, k - 1), lock, BookInputs(s, n, tx, k - 1), doubtful, locks,
                tx.inputs[k - 1].previous, Point(n, tx.hash, k - 1));
    }
  }

  /** Cells that the book already has from this transaction were created at this height. */
  predicate SameHeight(s: Book, n: nat, h: Hash) {
    forall op :: op in s.created && op.txHash == h ==> s.created[op].number == n
  }

  lemma {:induction false} HeightStep(s: Book, n: nat, tx: Tx, j: nat)
    requires SameHeight(s, n, tx.hash) && j < |tx.outputs|
    ensures SameHeight(CreateAgain(s, OutPoint(tx.hash, j), CellOf(n, tx, j)), n, tx.hash)
    ensures OutPoint(tx.hash, j) in s.created ==> s.created[OutPoint(tx.hash, j)].number == n
  {
  }

  lemma {:induction false} AttachOutputsKnown(u: Outputs, locks: set<Hash>, x: Index, n: nat, tx: Tx, k: nat)
    requires OpsKnown(u, x) && SaysTx(u, tx) && k <= |tx.outputs|
    ensures OpsKnown(u, AttachOutputs(x, locks, n, tx, k))
  {
    AttachOutputsWithin(u, locks, x, n, tx, k);
  }

  lemma {:induction false} AttachOutputsMatch(u: Outputs, x: Index, lock: Hash, s: Book, doubtful: set<OutPoint>,
                                              locks: set<Hash>, n: nat, tx: Tx, k: nat)
    requires Matches(x, lock, s, doubtful) && OpsKnown(u, x) && BookKnown(u, s) && lock in locks && k <= |tx.outputs|
    requires SaysTx(u, tx) && SameHeight(s, n, tx.hash)
    ensures Matches(AttachOutputs(x, locks, n, tx, k), lock, ReOutputs(s, n, tx, k), doubtful - OutOps(tx, k))
    ensures BookKnown(u, ReOutputs(s, n, tx, k)) && SameHeight(ReOutputs(s, n, tx, k), n, tx.hash)
    ensures OpsKnown(u, AttachOutputs(x, locks, n, tx, k))
  {
    hide Matches, AttachOutput, OpsKnown, BookKnown, SameHeight, CreateAgain;
    AttachOutputsKnown(u, locks, x, n, tx, k);
    if k == 0 {
      assert doubtful - OutOps(tx, k) == doubtful;
    } else {
      AttachOutputsMatch(u, x, lock, s, doubtful, locks, n, tx, k - 1);
      HeightStep(ReOutputs(s, n, tx, k - 1), n, tx, k - 1);
      CreateStep(u, AttachOutputs(x, locks, n, tx, k - 1), lock, ReOutputs(s, n, tx, k - 1),
                 doubtful - OutOps(tx, k - 1), locks, n, tx, k - 1);
      assert doubtful - OutOps(tx, k) == doubtful - OutOps(tx, k - 1) - {OutPoint(tx.hash, k - 1)};
    }
  }

  /** The cells that scanning adds have the height of the block. */
  predicate Grows(s: Book, t: Book, n: nat) {
    && (forall op :: op in s.created ==> op in t.created)
    && (forall op :: op in t.created ==>
          t.created[op].number == n || (op in s.created && t.created[op] == s.created[op]))
  }

  lemma {:induction false} ReOutputsGrow(s: Book, n: nat, tx: Tx, k: nat)
    requires k <= |tx.outputs|
    ensures Grows(s, ReOutputs(s, n, tx, k), n)
  {
    if k > 0 { ReOutputsGrow(s, n, tx, k - 1); }
  }

  predicate SameHeights(s: Book, b: Block) {
    forall i :: 0 <= i < |b.txs| ==> SameHeight(s, b.number, b.txs[i].hash)
  }

  lemma {:induction false} HeightsKept(s: Book, t: Book, b: Block)
    requires SameHeights(s, b) && Grows(s, t, b.number)
    ensures SameHeights(t, b)
  {
    forall i | 0 <= i < |b.txs| ensures SameHeight(t, b.number, b.txs[i].hash) {
      assert SameHeight(s, b.number, b.txs[i].hash);
    }
  }

  lemma {:induction false} AttachTxMatches(u: Outputs, x: Index, lock: Hash, s: Book, doubtful: set<OutPoint>,
                                           locks: set<Hash>, b: Block, tx: Tx)
    requires Matches(x, lock, s, doubtful) && OpsKnown(u, x) && BookKnown(u, s) && lock in locks
    requires SaysTx(u, tx) && SameHeights(s, b) && SameHeight(s, b.number, tx.hash)
    ensures Matches(AttachTx(x, locks, b.number, tx), lock, ReTx(s, b.number, tx), doubtful - OutOps(tx, |tx.outputs|))
    ensures BookKnown(u, ReTx(s, b.number, tx)) && SameHeights(ReTx(s, b.number, tx), b)
    ensures OpsKnown(u, AttachTx(x, locks, b.number, tx))
  {
    hide Matches, AttachInputs, AttachOutputs, BookInputs, ReOutputs, OpsKnown, SameHeights, Grows, OutOps;
    var n := b.number;
    AttachInputsMatch(u, x, lock, s, doubtful, locks, n, tx, SpendCount(tx));
    var y, t := AttachInputs(x, locks, n, tx, SpendCount(tx)), BookInputs(s, n, tx, SpendCount(tx));
    AttachOutputsMatch(u, y, lock, t, doubtful, locks, n, tx, |tx.outputs|);
    assert SameHeights(t, b) by { HeightsFrame(s, t, b); }
    ReOutputsGrow(t, n, tx, |tx.outputs|);
    HeightsKept(t, ReOutputs(t, n, tx, |tx.outputs|), b);
  }

  lemma {:induction false} HeightsFrame(s: Book, t: Book, b: Block)
    requires SameHeights(s, b) && t.created == s.created
    ensures SameHeights(t, b)
  {
    forall i | 0 <= i < |b.txs| ensures SameHeight(t, b.number, b.txs[i].hash) {
      assert SameHeight(s, b.number, b.txs[i].hash);
    }
  }

  /** The out points that the first k transactions of a block create. */
  function BlockOuts(b: Block, k: nat): set<OutPoint>
    requires k <= |b.txs|
  {
    if k == 0 then {} else BlockOuts(b, k - 1) + OutOps(b.txs[k - 1], |b.txs[k - 1].outputs|)
  }

  lemma {:induction false} AttachTxsMatch(u: Outputs, x: Index, lock: Hash, s: Book, doubtful: set<OutPoint>,
                                          locks: set<Hash>, b: Block, k: nat)
    requires Matches(x, lock, s, doubtful) && OpsKnown(u, x) && BookKnown(u, s) && lock in locks && k <= |b.txs|
    requires Says(u, b) && SameHeights(s, b)
    ensures Matches(AttachTxs(x, locks, b, k), lock, ReTxs(s, b, k), doubtful - BlockOuts(b, k))
    ensures BookKnown(u, ReTxs(s, b, k)) && SameHeights(ReTxs(s, b, k), b) && OpsKnown(u, AttachTxs(x, locks, b, k))
  {
    if k == 0 {
      assert doubtful - BlockOuts(b, k) == doubtful;
    } else {
      hide Matches, AttachTx, ReTx, OpsKnown, BookKnown, OutOps;
      AttachTxsMatch(u, x, lock, s, doubtful, locks, b, k - 1);
      var sure, tx := doubtful - BlockOuts(b, k - 1), b.txs[k - 1];
      AttachTxMatches(u, AttachTxs(x, locks, b, k - 1), lock, ReTxs(s, b, k - 1), sure, locks, b, tx);
      assert doubtful - BlockOuts(b, k) == sure - OutOps(tx, |tx.outputs|);
    }
  }

  lemma {:induction false} NewHeights(s: Book, b: Block, k: nat)
    requires k <= |b.txs|
    ensures Grows(s, BookTxs(s, b, k), b.number)
  {
    if k > 0 {
      var t, tx := BookTxs(s, b, k - 1), b.txs[k - 1];
      NewHeights(s, b, k - 1);
      InputsCreateNothing(t, b.number, tx, SpendCount(tx));
      BookOutputsGrow(BookInputs(t, b.number, tx, SpendCount(tx)), b.number, tx, |tx.outputs|);
    }
  }

  lemma {:induction false} InputsCreateNothing(s: Book, n: nat, tx: Tx, k: nat)
    requires k <= |tx.inputs|
    ensures BookInputs(s, n, tx, k).created == s.created
  {
    if k > 0 { InputsCreateNothing(s, n, tx, k - 1); }
  }

  lemma {:induction false} BookOutputsGrow(s: Book, n: nat, tx: Tx, k: nat)
    requires k <= |tx.outputs|
    ensures Grows(s, BookOutputs(s, n, tx, k), n)
  {
    if k > 0 { BookOutputsGrow(s, n, tx, k - 1); }
  }

  lemma {:induction false} FitsFresh(s: Book, b: Block, i: nat)
    requires i < |b.txs| && TxsFit(s, b, i + 1) && Extends(s, BookTxs(s, b, i))
    ensures SameHeight(s, b.number, b.txs[i].hash)
  {
    hide BookTxs;
    assert TxFits(BookTxs(s, b, i), b.txs[i]);
  }

  lemma {:induction false} HeightsFirst(s: Book, b: Block)
    requires TxsFit(s, b, |b.txs|) && BookOk(s)
    ensures SameHeights(s, b)
  {
    hide TxsFit, BookOk, SameHeight;
    forall i | 0 <= i < |b.txs| ensures SameHeight(s, b.number, b.txs[i].hash) { HeightFirst(s, b, i); }
  }

  lemma {:induction false} HeightFirst(s: Book, b: Block, i: nat)
    requires TxsFit(s, b, |b.txs|) && BookOk(s) && i < |b.txs|
    ensures SameHeight(s, b.number, b.txs[i].hash)
  {
    hide Extends, SameHeight, BookTx, TxFits, BookOk, TxsFit;
    TxsExtend(s, b, i + 1, |b.txs|);
    FitsAt(s, b, i);
    TxsExtend(s, b, 0, i);
    FitsFresh(s, b, i);
  }

  /** A block that follows the scanned chain: its rows are added. */
  lemma {:induction false} AttachFirst(u: Outputs, x: Index, lock: Hash, s: Book, doubtful: set<OutPoint>,
                                       locks: set<Hash>, b: Block)
    requires Matches(x, lock, s, doubtful) && OpsKnown(u, x) && BookKnown(u, s) && lock in locks && Says(u, b)
    requires TxsFit(s, b, |b.txs|) && BookOk(s)
    ensures Matches(AttachTxs(x, locks, b, |b.txs|), lock, BookBlock(s, b), doubtful - BlockOuts(b, |b.txs|))
    ensures BookKnown(u, BookBlock(s, b))
  {
    hide Matches, OpsKnown, BookKnown, TxsFit, SameHeights, BookOk, BlockOuts;
    HeightsFirst(s, b);
    AttachTxsMatch(u, x, lock, s, doubtful, locks, b, |b.txs|);
    ScanFirst(s, b, |b.txs|);
  }

  /**
    The last block of the scanned chain once more: right rows stay as they are, and rows of the
    block's own cells that were wrong become right.
   */
  lemma {:induction false} AttachTwice(u: Outputs, x: Index, lock: Hash, s: Book, doubtful: set<OutPoint>,
                                       locks: set<Hash>, b: Block)
    requires Matches(x, lock, BookBlock(s, b), doubtful) && OpsKnown(u, x) && BookKnown(u, BookBlock(s, b))
    requires lock in locks && Says(u, b)
    requires TxsFit(s, b, |b.txs|) && BookOk(s) && Ordered(b)
    ensures Matches(AttachTxs(x, locks, b, |b.txs|), lock, BookBlock(s, b), doubtful - BlockOuts(b, |b.txs|))
  {
    hide Matches, OpsKnown, BookKnown, TxsFit, SameHeights, BookOk, Grows, Ordered, BlockOuts;
    HeightsFirst(s, b);
    NewHeights(s, b, |b.txs|);
    HeightsKept(s, BookBlock(s, b), b);
    AttachTxsMatch(u, x, lock, BookBlock(s, b), doubtful, locks, b, |b.txs|);
    ScanTwice(s, b);
  }

  // ---------------------------------------------------------------- detaching undoes the book

  /** The chain store knows the transaction behind a cell, as the book has it. */
  predicate Backed(c: Columns, s: Book, op: OutPoint)
    requires op in s.created
  {
    var r := GetTransaction(c, op.txHash);
    && r.Some? && op.index < |r.value.0.outputs|
    && r.value.0.outputs[op.index].dataLen == s.created[op].dataLen && IsCellbase(r.value.0) == s.created[op].cellbase
  }

  predicate AllBacked(c: Columns, s: Book, doubtful: set<OutPoint>) {
    forall op :: op in s.created && op !in doubtful ==> Backed(c, s, op)
  }

  function Uncreate(s: Book, ops: set<OutPoint>): Book {
    s.(created := s.created - ops)
  }

  function Unspend(s: Book, ops: set<OutPoint>): Book {
    s.(spent := s.spent - ops)
  }

  lemma {:induction false} UncreateStep(u: Outputs, x: Index, lock: Hash, s: Book, doubtful: set<OutPoint>,
                                        locks: set<Hash>,
                                        n: nat, tx: Tx, j: nat)
    requires Matches(x, lock, s, doubtful) && OpsKnown(u, x) && SaysTx(u, tx) && lock in locks && j < |tx.outputs|
    requires OutPoint(tx.hash, j) in s.created && s.created[OutPoint(tx.hash, j)] == CellOf(n, tx, j)
    ensures Matches(DetachOutput(x, locks, n, tx, j), lock, Uncreate(s, {OutPoint(tx.hash, j)}), doubtful)
  {
    var op := OutPoint(tx.hash, j);
    var y, t := DetachOutput(x, locks, n, tx, j), Uncreate(s, {op});
    forall o | o in t.created && t.created[o].output.lock == lock ensures RowsOf(y, t, doubtful, o) {
      assert RowsOf(x, s, doubtful, o);
    }
    forall key | key in y.txs && key.lock == lock ensures Owns(t, key) { assert Owns(s, key); }
    forall key | key in y.live && key.lock == lock ensures Owns(t, key) { assert Owns(s, key); }
  }

  lemma {:induction false} OwnUnspend(x: Index, lock: Hash, s: Book, doubtful: set<OutPoint>, op: OutPoint,
                                      cell: LiveCell)
    requires Matches(x, lock, s, doubtful) && op in s.created && s.created[op].output.lock == lock
    requires cell.output == s.created[op].output
    requires op !in doubtful ==> cell.dataLen == s.created[op].dataLen && cell.cellbase == s.created[op].cellbase
    ensures Matches(Generate(x, KeyOf(s, op), cell), lock, Unspend(s, {op}), doubtful)
  {
    var y, t := Generate(x, KeyOf(s, op), cell), Unspend(s, {op});
    forall o | o in t.created && t.created[o].output.lock == lock ensures RowsOf(y, t, doubtful, o) {
      assert RowsOf(x, s, doubtful, o);
    }
    forall key | key in y.txs && key.lock == lock ensures Owns(t, key) { assert key in x.txs ==> Owns(s, key); }
    forall key | key in y.live && key.lock == lock ensures Owns(t, key) { assert key in x.live ==> Owns(s, key); }
  }

  /** A doubtful cell's spending may be forgotten without writing anything. */
  lemma {:induction false} DoubtfulUnspend(x: Index, lock: Hash, s: Book, doubtful: set<OutPoint>, op: OutPoint)
    requires Matches(x, lock, s, doubtful) && op in doubtful
    ensures Matches(x, lock, Unspend(s, {op}), doubtful)
  {
    var t := Unspend(s, {op});
    forall o | o in t.created && t.created[o].output.lock == lock ensures RowsOf(x, t, doubtful, o) {
      assert RowsOf(x, s, doubtful, o);
    }
    forall key | key in x.txs && key.lock == lock ensures Owns(t, key) { assert Owns(s, key); }
    forall key | key in x.live && key.lock == lock ensures Owns(t, key) { assert Owns(s, key); }
  }

  lemma {:induction false} OthersDetach(u: Outputs, x: Index, lock: Hash, locks: set<Hash>, c: Columns, op: OutPoint)
    requires OpsKnown(u, x) && Known(u, op) && LockOf(u, op) != lock
    ensures Untouched(x, DetachInput(x, locks, c, op), lock)
  {
  }

  lemma {:induction false} UnspendStep(u: Outputs, x: Index, lock: Hash, s: Book, doubtful: set<OutPoint>,
                                       locks: set<Hash>,
                                       c: Columns, op: OutPoint)
    requires Matches(x, lock, s, doubtful) && OpsKnown(u, x) && BookKnown(u, s) && lock in locks
    requires op in s.created && (op !in doubtful ==> Backed(c, s, op))
    ensures Matches(DetachInput(x, locks, c, op), lock, Unspend(s, {op}), doubtful)
  {
    var y := DetachInput(x, locks, c, op);
    if s.created[op].output.lock == lock {
      assert RowsOf(x, s, doubtful, op);
      var e, r := x.ops[op], GetTransaction(c, op.txHash);
      if r.Some? && op.index < |r.value.0.outputs| {
        OwnUnspend(x, lock, s, doubtful, op,
                   LiveCell(e.output.value, r.value.0.outputs[op.index].dataLen, IsCellbase(r.value.0)));
      } else {
        DoubtfulUnspend(x, lock, s, doubtful, op);
      }
    } else {
      OthersDetach(u, x, lock, locks, c, op);
      MatchesFrame(x, y, lock, s, doubtful);
      SameRows(y, lock, s, Unspend(s, {op}), doubtful);
    }
  }

  function OutOps(tx: Tx, k: nat): set<OutPoint> {
    set j | 0 <= j < k :: OutPoint(tx.hash, j)
  }

  function InOps(tx: Tx, k: nat): set<OutPoint>
    requires k <= |tx.inputs|
  {
    set i | 0 <= i < k :: tx.inputs[i].previous
  }

  lemma {:induction false} DetachOutputsMatch(u: Outputs, x: Index, lock: Hash, s: Book, doubtful: set<OutPoint>,
                                              locks: set<Hash>,
                                              n: nat, tx: Tx, k: nat)
    requires Matches(x, lock, s, doubtful) && OpsKnown(u, x) && SaysTx(u, tx) && lock in locks && k <= |tx.outputs|
    requires AllCreated(s, n, tx)
    ensures Matches(DetachOutputs(x, locks, n, tx, k), lock, Uncreate(s, OutOps(tx, k)), doubtful)
  {
    if k == 0 {
      assert Uncreate(s, OutOps(tx, 0)) == s;
    } else {
      hide Matches, DetachOutput, OpsKnown, Within;
      DetachOutputsMatch(u, x, lock, s, doubtful, locks, n, tx, k - 1);
      DetachOutputsKnown(u, x, locks, n, tx, k - 1);
      UncreateStep(u, DetachOutputs(x, locks, n, tx, k - 1), lock, Uncreate(s, OutOps(tx, k - 1)), doubtful, locks, n,
                   tx, k - 1);
      assert OutOps(tx, k) == OutOps(tx, k - 1) + {OutPoint(tx.hash, k - 1)};
      assert Uncreate(Uncreate(s, OutOps(tx, k - 1)), {OutPoint(tx.hash, k - 1)}) == Uncreate(s, OutOps(tx, k));
    }
  }

  lemma {:induction false} DetachOutputsKnown(u: Outputs, x: Index, locks: set<Hash>, n: nat, tx: Tx, k: nat)
    requires OpsKnown(u, x) && SaysTx(u, tx) && k <= |tx.outputs|
    ensures OpsKnown(u, DetachOutputs(x, locks, n, tx, k))
  {
    DetachOutputsWithin(u, locks, x, n, tx, k);
  }

  lemma {:induction false} DetachInputsKnown(u: Outputs, x: Index, locks: set<Hash>, c: Columns, tx: Tx, k: nat)
    requires OpsKnown(u, x) && k <= |tx.inputs|
    ensures OpsKnown(u, DetachInputs(x, locks, c, tx, k))
  {
    DetachInputsWithin(u, locks, x, c, tx, k);
  }

  lemma {:induction false} UnspendMore(s: Book, tx: Tx, k: nat)
    requires 0 < k <= |tx.inputs|
    ensures Unspend(Unspend(s, InOps(tx, k - 1)), {tx.inputs[k - 1].previous}) == Unspend(s, InOps(tx, k))
  {
    var op := tx.inputs[k - 1].previous;
    assert InOps(tx, k) == InOps(tx, k - 1) + {op};
    assert s.spent - InOps(tx, k - 1) - {op} == s.spent - (InOps(tx, k - 1) + {op});
  }

  lemma {:induction false} DetachInputsMatch(u: Outputs, x: Index, lock: Hash, s: Book, doubtful: set<OutPoint>,
                                             locks: set<Hash>,
                                             c: Columns, tx: Tx, k: nat)
    requires Matches(x, lock, s, doubtful) && OpsKnown(u, x) && BookKnown(u, s) && lock in locks && k <= |tx.inputs|
    requires AllBacked(c, s, doubtful) && forall i :: 0 <= i < k ==> tx.inputs[i].previous in s.created
    ensures Matches(DetachInputs(x, locks, c, tx, k), lock, Unspend(s, InOps(tx, k)), doubtful)
  {
    if k == 0 {
      assert Unspend(s, InOps(tx, 0)) == s;
    } else {
      hide Matches, DetachInput, OpsKnown, Backed, BookKnown, InOps;
      var op, t := tx.inputs[k - 1].previous, Unspend(s, InOps(tx, k - 1));
      BookKnownFrame(u, s, t);
      DetachInputsMatch(u, x, lock, s, doubtful, locks, c, tx, k - 1);
      DetachInputsKnown(u, x, locks, c, tx, k - 1);
      BackedFrame(c, s, t, op);
      UnspendStep(u, DetachInputs(x, locks, c, tx, k - 1), lock, t, doubtful, locks, c, op);
      UnspendMore(s, tx, k);
    }
  }

  lemma {:induction false} BackedFrame(c: Columns, s: Book, t: Book, op: OutPoint)
    requires op in s.created && op in t.created && t.created[op] == s.created[op]
    ensures Backed(c, s, op) <==> Backed(c, t, op)
  {
  }

  /** Every input names a created cell, and no cell of this lock, doubtful ones excepted, that is spent already. */
  predicate UnspentFor(t: Book, tx: Tx, lock: Hash, doubtful: set<OutPoint>) {
    forall k :: 0 <= k < SpendCount(tx) ==>
      var op := tx.inputs[k].previous;
      op in t.created && (t.created[op].output.lock == lock && op !in doubtful ==> op !in t.spent)
  }

  /** For this lock, taking a transaction's cells out and its spends back is the inverse of writing it. */
  lemma {:induction false} UnBookTx(t: Book, n: nat, tx: Tx, lock: Hash, doubtful: set<OutPoint>)
    requires TxFits(t, tx) && BookOk(t) && UnspentFor(t, tx, lock, doubtful)
    ensures var s := BookTx(t, n, tx);
            && SameForLock(Unspend(Uncreate(s, OutOps(tx, |tx.outputs|)), InOps(tx, SpendCount(tx))), t, lock, doubtful)
            && Uncreate(s, OutOps(tx, |tx.outputs|)).created == t.created
            && AllCreated(s, n, tx)
  {
    var v := BookInputs(t, n, tx, SpendCount(tx));
    BookInputsAre(t, n, tx, SpendCount(tx));
    BookOutputsAre(v, n, tx, |tx.outputs|);
    UnBookCreated(t, v, BookTx(t, n, tx), tx);
    UnBookSpent(t, v, tx, lock, doubtful);
  }

  predicate AllCreated(s: Book, n: nat, tx: Tx) {
    forall j :: 0 <= j < |tx.outputs| ==>
      OutPoint(tx.hash, j) in s.created && s.created[OutPoint(tx.hash, j)] == CellOf(n, tx, j)
  }

  lemma {:induction false} UnBookCreated(t: Book, v: Book, s: Book, tx: Tx)
    requires v.created == t.created && forall op :: op in t.created ==> op.txHash != tx.hash
    requires forall op :: op in s.created <==> op in v.created || (op.txHash == tx.hash && op.index < |tx.outputs|)
    requires forall op :: op in v.created ==> s.created[op] == v.created[op]
    ensures s.created - OutOps(tx, |tx.outputs|) == t.created
  {
    var left := s.created - OutOps(tx, |tx.outputs|);
    forall op ensures (op in left <==> op in t.created) && (op in left ==> left[op] == t.created[op]) {
      if op in s.created && op.txHash == tx.hash && op.index < |tx.outputs| {
        assert OutPoint(tx.hash, op.index) in OutOps(tx, |tx.outputs|);
      }
    }
  }

  lemma {:induction false} UnBookSpent(t: Book, v: Book, tx: Tx, lock: Hash, doubtful: set<OutPoint>)
    requires UnspentFor(t, tx, lock, doubtful) && BookOk(t)
    requires forall op :: op in v.spent <==> op in t.spent || (op in t.created && SpendsOp(tx, SpendCount(tx), op))
    requires forall op :: op in t.spent ==> v.spent[op] == t.spent[op]
    ensures forall op :: op in t.created && t.created[op].output.lock == lock && op !in doubtful ==>
              Same(v.spent - InOps(tx, SpendCount(tx)), t.spent, op)
  {
  }

  lemma {:induction false} DetachTxMatches(u: Outputs, x: Index, lock: Hash, t: Book, doubtful: set<OutPoint>,
                                           locks: set<Hash>, c: Columns, n: nat, tx: Tx)
    requires TxFits(t, tx) && BookOk(t) && UnspentFor(t, tx, lock, doubtful)
    requires SaysTx(u, tx) && lock in locks && OpsKnown(u, x) && BookKnown(u, t)
    requires Matches(x, lock, BookTx(t, n, tx), doubtful) && AllBacked(c, t, doubtful)
    ensures Matches(DetachTx(x, locks, c, n, tx), lock, t, doubtful)
  {
    var s := BookTx(t, n, tx);
    UnBookTx(t, n, tx, lock, doubtful);
    var v := Uncreate(s, OutOps(tx, |tx.outputs|));
    assert forall i :: 0 <= i < SpendCount(tx) ==> tx.inputs[i].previous in v.created;
    hide Matches, DetachInputs, DetachOutputs, OpsKnown, TxFits, Backed, BookTx, SameForLock, OutOps, InOps, UnspentFor;
    DetachOutputsMatch(u, x, lock, s, doubtful, locks, n, tx, |tx.outputs|);
    DetachOutputsKnown(u, x, locks, n, tx, |tx.outputs|);
    forall op | op in v.created && op !in doubtful ensures Backed(c, v, op) { BackedFrame(c, t, v, op); }
    DetachInputsMatch(u, DetachOutputs(x, locks, n, tx, |tx.outputs|), lock, v, doubtful, locks, c, tx, SpendCount(tx));
    SameRows(DetachTx(x, locks, c, n, tx), lock, Unspend(v, InOps(tx, SpendCount(tx))), t, doubtful);
  }

  lemma {:induction false} SubBook(u: Outputs, c: Columns, s: Book, t: Book, doubtful: set<OutPoint>)
    requires Extends(s, t) && BookKnown(u, t) && AllBacked(c, t, doubtful)
    ensures BookKnown(u, s) && AllBacked(c, s, doubtful)
  {
    forall op | op in s.created && op !in doubtful ensures Backed(c, s, op) { BackedFrame(c, s, t, op); }
  }

  predicate BlockUnspentFor(s: Book, b: Block, lock: Hash, doubtful: set<OutPoint>) {
    forall i :: 0 <= i < |b.txs| ==> UnspentAt(s, b, lock, doubtful, i)
  }

  predicate UnspentAt(s: Book, b: Block, lock: Hash, doubtful: set<OutPoint>, i: nat)
    requires i < |b.txs|
  {
    UnspentFor(BookTxs(s, b, i), b.txs[i], lock, doubtful)
  }

  /** Detaching the last block of a scanned chain gives the rows of the chain without it. */
  lemma {:induction false} DetachTxsMatch(u: Outputs, x: Index, lock: Hash, s: Book, doubtful: set<OutPoint>,
                                          locks: set<Hash>, c: Columns, b: Block, k: nat)
    requires TxsFit(s, b, |b.txs|) && BookOk(s) && BlockUnspentFor(s, b, lock, doubtful) && Says(u, b) && lock in locks
    requires k <= |b.txs|
    requires OpsKnown(u, x) && BookKnown(u, BookBlock(s, b)) && AllBacked(c, BookBlock(s, b), doubtful)
    requires Matches(x, lock, BookBlock(s, b), doubtful)
    ensures Matches(DetachTxs(x, locks, c, b, k), lock, BookTxs(s, b, k), doubtful)
    decreases |b.txs| - k
  {
    if k < |b.txs| {
      hide Matches, OpsKnown, DetachTx, BookTx, Extends, AllBacked, BookKnown, TxFits, SaysTx, BookOk, TxsFit, Says,
           UnspentFor;
      DetachTxsMatch(u, x, lock, s, doubtful, locks, c, b, k + 1);
      DetachKnown(u, x, locks, c, b, k + 1);
      TxsExtend(s, b, k, |b.txs|);
      TxsExtend(s, b, k + 1, |b.txs|);
      FitsAt(s, b, k);
      SaysAt(u, b, k);
      SubBook(u, c, BookTxs(s, b, k), BookBlock(s, b), doubtful);
      assert UnspentAt(s, b, lock, doubtful, k);
      var y := DetachTxs(x, locks, c, b, k + 1);
      DetachTxMatches(u, y, lock, BookTxs(s, b, k), doubtful, locks, c, b.number, b.txs[k]);
    }
  }

  lemma {:induction false} FitsAt(s: Book, b: Block, k: nat)
    requires k < |b.txs| && TxsFit(s, b, k + 1)
    ensures TxsFit(s, b, k) && TxFits(BookTxs(s, b, k), b.txs[k])
  {
  }

  lemma {:induction false} SaysAt(u: Outputs, b: Block, k: nat)
    requires Says(u, b) && k < |b.txs|
    ensures SaysTx(u, b.txs[k])
  {
  }

  lemma {:induction false} DetachKnown(u: Outputs, x: Index, locks: set<Hash>, c: Columns, b: Block, k: nat)
    requires OpsKnown(u, x) && Says(u, b) && k <= |b.txs|
    ensures OpsKnown(u, DetachTxs(x, locks, c, b, k))
  {
    DetachWithin(u, locks, x, c, b, k);
  }

  // ---------------------------------------------------------------- detaching a spend of a spent cell

  /** The cell was created and spent in the book gb (that of genesis), with this lock. */
  predicate SpentCell(gb: Book, lock: Hash, op: OutPoint) {
    op in gb.created && op in gb.spent && gb.created[op].output.lock == lock
  }

  /** The block spends a cell of this lock that was spent in gb already. */
  predicate Respends(gb: Book, b: Block, lock: Hash) {
    exists i, k :: 0 <= i < |b.txs| && 0 <= k < SpendCount(b.txs[i]) && SpentCell(gb, lock, b.txs[i].inputs[k].previous)
  }

  /** The row of a cell says that it is live, or that a block after genesis spent it. */
  predicate Off(x: Index, key: Key) {
    key in x.txs && if key in x.live then x.txs[key].None? else x.txs[key].Some? && x.txs[key].value.number > 0
  }

  /** The rows of a cell that was spent in gb say so of it: wrong for every chain that goes on from there. */
  ghost predicate Haunted(gb: Book, x: Index, lock: Hash) {
    exists op :: SpentCell(gb, lock, op) && Off(x, KeyOf(gb, op))
  }

  /** A cell that was spent in gb has a live row. */
  ghost predicate LiveAgain(gb: Book, x: Index, lock: Hash) {
    exists op :: SpentCell(gb, lock, op) && KeyOf(gb, op) in x.live
  }

  /** All that is spent in gb is spent in genesis. */
  predicate AtGenesis(gb: Book) {
    forall op :: op in gb.spent ==> gb.spent[op].number == 0
  }

  lemma {:induction false} HauntedIsWrong(gb: Book, x: Index, lock: Hash, s: Book, doubtful: set<OutPoint>)
    requires Haunted(gb, x, lock) && AtGenesis(gb) && Extends(gb, s) && doubtful !! gb.created.Keys
    ensures !Matches(x, lock, s, doubtful)
  {
    var op :| SpentCell(gb, lock, op) && Off(x, KeyOf(gb, op));
    assert !RowsOf(x, s, doubtful, op);
  }

  lemma {:induction false} LiveIsWrong(gb: Book, x: Index, lock: Hash, s: Book, doubtful: set<OutPoint>)
    requires LiveAgain(gb, x, lock) && Extends(gb, s) && doubtful !! gb.created.Keys
    ensures !Matches(x, lock, s, doubtful)
  {
    var op :| SpentCell(gb, lock, op) && KeyOf(gb, op) in x.live;
    assert !RowsOf(x, s, doubtful, op);
  }

  lemma {:induction false} HauntedHasRows(gb: Book, x: Index, lock: Hash)
    requires Haunted(gb, x, lock)
    ensures !Matches(x, lock, BLANK, {})
  {
    var op :| SpentCell(gb, lock, op) && Off(x, KeyOf(gb, op));
    assert !Owns(BLANK, KeyOf(gb, op));
  }

  /** No transaction of the block is the one that created the cell. */
  predicate Older(b: Block, op: OutPoint) {
    forall i :: 0 <= i < |b.txs| ==> b.txs[i].hash != op.txHash
  }

  lemma {:induction false} CreatedOlder(s: Book, b: Block, op: OutPoint)
    requires TxsFit(s, b, |b.txs|) && BookOk(s) && op in s.created
    ensures Older(b, op)
  {
    forall i | 0 <= i < |b.txs| ensures b.txs[i].hash != op.txHash {
      TxsExtend(s, b, i + 1, |b.txs|);
      TxsExtend(s, b, 0, i);
    }
  }

  /** The out-point row of a cell, and its live row if there is one, survive what does not delete them. */
  predicate Keeps(x: Index, y: Index, key: Key) {
    && (key.op in x.ops && x.ops[key.op].output.Some? ==> key.op in y.ops && y.ops[key.op] == x.ops[key.op])
    && (key in x.live ==> key in y.live)
    && (Off(x, key) ==> Off(y, key))
  }

  lemma {:induction false} KeepsOutputs(x: Index, locks: set<Hash>, n: nat, tx: Tx, k: nat, key: Key)
    requires k <= |tx.outputs| && tx.hash != key.op.txHash
    ensures Keeps(x, DetachOutputs(x, locks, n, tx, k), key)
  {
    if k > 0 { KeepsOutputs(x, locks, n, tx, k - 1, key); }
  }

  lemma {:induction false} KeepsInputs(x: Index, locks: set<Hash>, c: Columns, tx: Tx, k: nat, key: Key)
    requires k <= |tx.inputs|
    ensures Keeps(x, DetachInputs(x, locks, c, tx, k), key)
  {
    if k > 0 { KeepsInputs(x, locks, c, tx, k - 1, key); }
  }

  lemma {:induction false} KeepsTx(x: Index, locks: set<Hash>, c: Columns, n: nat, tx: Tx, key: Key)
    requires tx.hash != key.op.txHash
    ensures Keeps(x, DetachTx(x, locks, c, n, tx), key)
  {
    hide DetachOutputs, DetachInputs;
    KeepsOutputs(x, locks, n, tx, |tx.outputs|, key);
    KeepsInputs(DetachOutputs(x, locks, n, tx, |tx.outputs|), locks, c, tx, SpendCount(tx), key);
  }

  lemma {:induction false} KeepsTxs(x: Index, locks: set<Hash>, c: Columns, b: Block, j: nat, k: nat, key: Key)
    requires j <= k <= |b.txs| && Older(b, key.op)
    ensures Keeps(DetachTxs(x, locks, c, b, k), DetachTxs(x, locks, c, b, j), key)
    decreases k - j
  {
    if j < k {
      hide DetachTx;
      KeepsTxs(x, locks, c, b, j + 1, k, key);
      KeepsTx(DetachTxs(x, locks, c, b, j + 1), locks, c, b.number, b.txs[j], key);
    }
  }

  /** The entry that the out-point column has for a cell of the book. */
  predicate HasEntry(x: Index, key: Key) {
    key.op in x.ops && x.ops[key.op].output.Some? && key == Key(x.ops[key.op].lock, x.ops[key.op].number, key.op)
  }

  predicate Answered(c: Columns, op: OutPoint) {
    var r := GetTransaction(c, op.txHash); r.Some? && op.index < |r.value.0.outputs|
  }

  lemma {:induction false} RevivedByInputs(x: Index, locks: set<Hash>, c: Columns, tx: Tx, i: nat, k: nat, key: Key)
    requires i < k <= |tx.inputs| && tx.inputs[i].previous == key.op
    requires HasEntry(x, key) && key.lock in locks && Answered(c, key.op)
    ensures var y := DetachInputs(x, locks, c, tx, k); key in y.live && Off(y, key)
  {
    KeepsInputs(x, locks, c, tx, k - 1, key);
    if i < k - 1 { RevivedByInputs(x, locks, c, tx, i, k - 1, key); }
  }

  /** Detaching an input gives its cell a live row, whatever the cell was before. */
  lemma {:induction false} Revived(x: Index, locks: set<Hash>, c: Columns, b: Block, i: nat, k: nat, key: Key)
    requires i < |b.txs| && k < SpendCount(b.txs[i]) && b.txs[i].inputs[k].previous == key.op && Older(b, key.op)
    requires HasEntry(x, key) && key.lock in locks && Answered(c, key.op)
    ensures var y := DetachTxs(x, locks, c, b, 0); key in y.live && Off(y, key)
  {
    hide DetachOutputs, DetachInputs;
    var y, tx := DetachTxs(x, locks, c, b, i + 1), b.txs[i];
    KeepsTxs(x, locks, c, b, i + 1, |b.txs|, key);
    var z := DetachOutputs(y, locks, b.number, tx, |tx.outputs|);
    KeepsOutputs(y, locks, b.number, tx, |tx.outputs|, key);
    RevivedByInputs(z, locks, c, tx, k, SpendCount(tx), key);
    assert DetachTxs(x, locks, c, b, i) == DetachInputs(z, locks, c, tx, SpendCount(tx));
    KeepsTxs(x, locks, c, b, 0, i, key);
  }

  /** Wrong rows of genesis cells stay wrong while blocks are detached. */
  lemma {:induction false} HauntedStays(gb: Book, x: Index, lock: Hash, s: Book, locks: set<Hash>, c: Columns, b: Block)
    requires Haunted(gb, x, lock) && Extends(gb, s) && TxsFit(s, b, |b.txs|) && BookOk(s)
    ensures Haunted(gb, DetachTxs(x, locks, c, b, 0), lock)
    ensures LiveAgain(gb, x, lock) ==> LiveAgain(gb, DetachTxs(x, locks, c, b, 0), lock)
  {
    var op :| SpentCell(gb, lock, op) && Off(x, KeyOf(gb, op));
    CreatedOlder(s, b, op);
    KeepsTxs(x, locks, c, b, 0, |b.txs|, KeyOf(gb, op));
    if LiveAgain(gb, x, lock) {
      var op' :| SpentCell(gb, lock, op') && KeyOf(gb, op') in x.live;
      CreatedOlder(s, b, op');
      KeepsTxs(x, locks, c, b, 0, |b.txs|, KeyOf(gb, op'));
    }
  }

  lemma {:induction false} OffInputs(x: Index, locks: set<Hash>, n: nat, tx: Tx, k: nat, key: Key)
    requires k <= |tx.inputs| && n > 0
    ensures Off(x, key) ==> Off(AttachInputs(x, locks, n, tx, k), key)
    ensures key in x.live && !SpendsOp(tx, k, key.op) ==> key in AttachInputs(x, locks, n, tx, k).live
  {
    if k > 0 { OffInputs(x, locks, n, tx, k - 1, key); }
  }

  lemma {:induction false} OffOutputs(x: Index, locks: set<Hash>, n: nat, tx: Tx, k: nat, key: Key)
    requires k <= |tx.outputs| && tx.hash != key.op.txHash
    ensures Off(x, key) ==> Off(AttachOutputs(x, locks, n, tx, k), key)
    ensures key in x.live ==> key in AttachOutputs(x, locks, n, tx, k).live
  {
    if k > 0 { OffOutputs(x, locks, n, tx, k - 1, key); }
  }

  lemma {:induction false} OffTxs(x: Index, locks: set<Hash>, b: Block, k: nat, key: Key)
    requires k <= |b.txs| && b.number > 0 && Older(b, key.op)
    ensures Off(x, key) ==> Off(AttachTxs(x, locks, b, k), key)
    ensures key in x.live && (forall i :: 0 <= i < k ==> !SpendsOp(b.txs[i], SpendCount(b.txs[i]), key.op)) ==>
              key in AttachTxs(x, locks, b, k).live
  {
    if k > 0 {
      hide Off, AttachInputs, AttachOutputs, SpendsOp;
      OffTxs(x, locks, b, k - 1, key);
      var y, tx := AttachTxs(x, locks, b, k - 1), b.txs[k - 1];
      OffInputs(y, locks, b.number, tx, SpendCount(tx), key);
      OffOutputs(AttachInputs(y, locks, b.number, tx, SpendCount(tx)), locks, b.number, tx, |tx.outputs|, key);
    }
  }

  /** They stay wrong while blocks after genesis are attached, because such a block is never the right spender. */
  lemma {:induction false} HauntedAttach(gb: Book, x: Index, lock: Hash, s: Book, locks: set<Hash>, b: Block)
    requires Haunted(gb, x, lock) && Extends(gb, s) && TxsFit(s, b, |b.txs|) && BookOk(s) && b.number > 0
    ensures Haunted(gb, AttachTxs(x, locks, b, |b.txs|), lock)
  {
    var op :| SpentCell(gb, lock, op) && Off(x, KeyOf(gb, op));
    CreatedOlder(s, b, op);
    OffTxs(x, locks, b, |b.txs|, KeyOf(gb, op));
  }

  /** A wrong live row stays while the attached blocks spend none of these cells. */
  lemma {:induction false} LiveAttach(gb: Book, x: Index, lock: Hash, s: Book, locks: set<Hash>, b: Block)
    requires LiveAgain(gb, x, lock) && Extends(gb, s) && TxsFit(s, b, |b.txs|) && BookOk(s) && b.number > 0
    requires !Respends(gb, b, lock)
    ensures LiveAgain(gb, AttachTxs(x, locks, b, |b.txs|), lock)
  {
    var op :| SpentCell(gb, lock, op) && KeyOf(gb, op) in x.live;
    CreatedOlder(s, b, op);
    OffTxs(x, locks, b, |b.txs|, KeyOf(gb, op));
  }

  lemma {:induction false} RespendHaunts(gb: Book, x: Index, lock: Hash, s: Book, doubtful: set<OutPoint>,
                                         rough: set<OutPoint>, locks: set<Hash>, c: Columns, b: Block)
    requires TxsFit(s, b, |b.txs|) && BookOk(s) && Extends(gb, s) && doubtful !! gb.created.Keys
    requires Respends(gb, b, lock) && lock in locks && AllBacked(c, BookBlock(s, b), doubtful)
    requires Matches(x, lock, BookBlock(s, b), rough)
    ensures Haunted(gb, DetachTxs(x, locks, c, b, 0), lock) && LiveAgain(gb, DetachTxs(x, locks, c, b, 0), lock)
  {
    var i, k :| 0 <= i < |b.txs| && 0 <= k < SpendCount(b.txs[i]) && SpentCell(gb, lock, b.txs[i].inputs[k].previous);
    var op := b.txs[i].inputs[k].previous;
    TxsExtend(s, b, 0, |b.txs|);
    hide BookTxs, TxsFit, DetachTxs, Extends;
    RespentRow(gb, x, lock, s, BookBlock(s, b), doubtful, rough, c, op);
    CreatedOlder(s, b, op) by { assert op in s.created by { InBoth(gb, s, op); } }
    Revived(x, locks, c, b, i, k, KeyOf(gb, op));
  }

  lemma {:induction false} InBoth(gb: Book, s: Book, op: OutPoint)
    requires Extends(gb, s) && op in gb.created
    ensures op in s.created && s.created[op] == gb.created[op]
  {
  }

  lemma {:induction false} RespentRow(gb: Book, x: Index, lock: Hash, s: Book, t: Book, doubtful: set<OutPoint>,
                                      rough: set<OutPoint>, c: Columns, op: OutPoint)
    requires Extends(gb, s) && Extends(s, t) && doubtful !! gb.created.Keys && SpentCell(gb, lock, op)
    requires Matches(x, lock, t, rough) && AllBacked(c, t, doubtful)
    ensures HasEntry(x, KeyOf(gb, op)) && Answered(c, op)
  {
    assert RowsOf(x, t, rough, op);
    assert Backed(c, t, op);
  }

  lemma {:induction false} NoRespendUnspent(gb: Book, s: Book, b: Block, lock: Hash)
    requires TxsFit(s, b, |b.txs|) && BookOk(s) && BookOk(gb) && Extends(gb, s) && InputsFit(s, gb.spent.Keys, b)
    requires !Respends(gb, b, lock)
    ensures BlockUnspentFor(s, b, lock, {})
  {
    forall i | 0 <= i < |b.txs| ensures UnspentAt(s, b, lock, {}, i) {
      assert InputsFitAt(s, gb.spent.Keys, b, i);
      TxsExtend(s, b, i, |b.txs|);
      TxsExtend(s, b, 0, i);
      forall k | 0 <= k < SpendCount(b.txs[i])
        ensures var op, t := b.txs[i].inputs[k].previous, BookTxs(s, b, i);
                op in t.created && (t.created[op].output.lock == lock ==> op !in t.spent)
      {
        assert !SpentCell(gb, lock, b.txs[i].inputs[k].previous);
      }
    }
  }

  lemma {:induction false} MoreDoubt(s: Book, b: Block, lock: Hash, doubtful: set<OutPoint>)
    requires BlockUnspentFor(s, b, lock, {})
    ensures BlockUnspentFor(s, b, lock, doubtful)
  {
    forall i | 0 <= i < |b.txs| ensures UnspentAt(s, b, lock, doubtful, i) {
      assert UnspentAt(s, b, lock, {}, i);
    }
  }

  /**
    The rows after detaching the last block of a scanned chain are those of the chain without it
    if and only if the block spends no cell of the lock that genesis spent before. Otherwise a
    cell that is spent has a live row.
   */
  lemma {:induction false} DetachExactly(u: Outputs, gb: Book, x: Index, lock: Hash, s: Book, doubtful: set<OutPoint>,
                                         locks: set<Hash>, c: Columns, b: Block)
    requires TxsFit(s, b, |b.txs|) && BookOk(s) && BookOk(gb) && Extends(gb, s) && InputsFit(s, gb.spent.Keys, b)
    requires Says(u, b) && lock in locks && doubtful !! gb.created.Keys
    requires OpsKnown(u, x) && BookKnown(u, BookBlock(s, b)) && AllBacked(c, BookBlock(s, b), doubtful)
    requires Matches(x, lock, BookBlock(s, b), doubtful)
    ensures var y := DetachTxs(x, locks, c, b, 0);
            && (Matches(y, lock, s, doubtful) <==> !Respends(gb, b, lock))
            && (Respends(gb, b, lock) ==> Haunted(gb, y, lock) && LiveAgain(gb, y, lock))
  {
    hide Matches, OpsKnown, BookKnown, AllBacked, TxsFit, BookOk, Extends, InputsFit, Says, Respends, Haunted,
         DetachTxs, LiveAgain, BlockUnspentFor;
    if Respends(gb, b, lock) {
      RespendHaunts(gb, x, lock, s, doubtful, doubtful, locks, c, b);
      LiveIsWrong(gb, DetachTxs(x, locks, c, b, 0), lock, s, doubtful);
    } else {
      NoRespendUnspent(gb, s, b, lock);
      MoreDoubt(s, b, lock, doubtful);
      DetachTxsMatch(u, x, lock, s, doubtful, locks, c, b, 0);
    }
  }

  lemma {:induction false} FitsUnspent(s: Book, b: Block, lock: Hash, again: set<OutPoint>, doubtful: set<OutPoint>)
    requires InputsFit(s, again, b) && again <= doubtful
    ensures BlockUnspentFor(s, b, lock, doubtful)
  {
    forall i | 0 <= i < |b.txs| ensures UnspentAt(s, b, lock, doubtful, i) {
      assert InputsFitAt(s, again, b, i);
    }
  }

  /** With the cells that genesis spent among the doubtful ones, detaching is exact for all others in any case. */
  lemma {:induction false} DetachRoughly(u: Outputs, again: set<OutPoint>, x: Index, lock: Hash, s: Book,
                                         doubtful: set<OutPoint>, locks: set<Hash>, c: Columns, b: Block)
    requires TxsFit(s, b, |b.txs|) && BookOk(s) && InputsFit(s, again, b) && again <= doubtful
    requires Says(u, b) && lock in locks && OpsKnown(u, x)
    requires BookKnown(u, BookBlock(s, b)) && AllBacked(c, BookBlock(s, b), doubtful)
    requires Matches(x, lock, BookBlock(s, b), doubtful)
    ensures Matches(DetachTxs(x, locks, c, b, 0), lock, s, doubtful)
  {
    hide Matches, OpsKnown, BookKnown, AllBacked, TxsFit, BookOk, InputsFit, Says, DetachTxs, BlockUnspentFor;
    FitsUnspent(s, b, lock, again, doubtful);
    DetachTxsMatch(u, x, lock, s, doubtful, locks, c, b, 0);
  }
}
