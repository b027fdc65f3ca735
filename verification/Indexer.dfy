/**
  The lock-hash indexer: a store of its own that follows the main chain in batches, one
  transaction per batch, and answers for the cells of the locks it is told to index.
 */
module Indexer {
  import opened Types
  import opened Store
  import opened BlockTree
  import opened IndexBook
  import opened IndexColumns
  import opened IndexSync

  class IndexerTransaction {
    var cols: Index

    constructor (x: Index)
      ensures cols == x
    {
      cols := x;
    }

    method GenerateLiveCell(key: Key, cell: LiveCell)
      modifies this
      ensures cols == Generate(old(cols), key, cell)
    {
      cols := cols.(live := cols.live[key := cell]);
      cols := cols.(txs := cols.txs[key := None]);
      cols := cols.(ops := cols.ops[key.op := Entry(key.lock, key.number, Some(cell.output))]);
    }

    method ConsumeLiveCell(key: Key, pt: Point)
      modifies this
      ensures cols == Consume(old(cols), key, pt)
    {
      if key in cols.live {
        var output := cols.live[key].output;
        cols := cols.(live := cols.live - {key});
        cols := cols.(txs := cols.txs[key := Some(pt)]);
        cols := cols.(ops := cols.ops[key.op := Entry(key.lock, key.number, Some(output))]);
      }
    }
  }

  method AttachTransaction(txn: IndexerTransaction, locks: set<Hash>, n: nat, tx: Tx)
    modifies txn
    ensures txn.cols == AttachTx(old(txn.cols), locks, n, tx)
  {
    hide Generate, Consume;
    if !IsCellbase(tx) {
      for k := 0 to |tx.inputs|
        invariant txn.cols == AttachInputs(old(txn.cols), locks, n, tx, k)
      {
        var op := tx.inputs[k].previous;
        if op in txn.cols.ops {
          var e := txn.cols.ops[op];
          if e.lock in locks { txn.ConsumeLiveCell(Key(e.lock, e.number, op), Point(n, tx.hash, k)); }
        }
      }
    }
    ghost var start := txn.cols;
    for j := 0 to |tx.outputs|
      invariant txn.cols == AttachOutputs(start, locks, n, tx, j)
    {
      var output := tx.outputs[j];
      if output.lock in locks {
        txn.GenerateLiveCell(Key(output.lock, n, OutPoint(tx.hash, j)),
                             LiveCell(CellOutput(output.capacity, output.lock), output.dataLen, IsCellbase(tx)));
      }
    }
  }

  method AttachBlock(txn: IndexerTransaction, locks: set<Hash>, b: Block)
    modifies txn
    ensures txn.cols == AttachTxs(old(txn.cols), locks, b, |b.txs|)
  {
    hide AttachTx;
    for i := 0 to |b.txs|
      invariant txn.cols == AttachTxs(old(txn.cols), locks, b, i)
    {
      AttachTransaction(txn, locks, b.number, b.txs[i]);
    }
  }

  /** The created-by lookup never runs past the outputs it finds. */
  method DetachTransaction(ghost u: Outputs, txn: IndexerTransaction, locks: set<Hash>, c: Columns, n: nat, tx: Tx)
    requires OpsKnown(u, txn.cols) && Answers(u, c) && SaysTx(u, tx)
    modifies txn
    ensures txn.cols == DetachTx(old(txn.cols), locks, c, n, tx)
  {
    hide Generate, OpsKnown, GetTransaction;
    for j := 0 to |tx.outputs|
      invariant txn.cols == DetachOutputs(old(txn.cols), locks, n, tx, j)
    {
      var op, lock := OutPoint(tx.hash, j), tx.outputs[j].lock;
      if lock in locks {
        txn.cols := txn.cols.(live := txn.cols.live - {Key(lock, n, op)});
        txn.cols := txn.cols.(txs := txn.cols.txs - {Key(lock, n, op)});
        txn.cols := txn.cols.(ops := txn.cols.ops - {op});
      }
    }
    ghost var start := txn.cols;
    DetachOutputsKnown(u, old(txn.cols), locks, n, tx, |tx.outputs|);
    if !IsCellbase(tx) {
      for k := 0 to |tx.inputs|
        invariant txn.cols == DetachInputs(start, locks, c, tx, k)
      {
        var op := tx.inputs[k].previous;
        DetachInputsKnown(u, start, locks, c, tx, k);
        if op in txn.cols.ops && txn.cols.ops[op].lock in locks && txn.cols.ops[op].output.Some? {
          var e, r := txn.cols.ops[op], GetTransaction(c, op.txHash);
          if r.Some? {
            assert op.index < |r.value.0.outputs| by { EntryKnown(u, txn.cols, op); }
            txn.GenerateLiveCell(Key(e.lock, e.number, op),
                                 LiveCell(e.output.value, r.value.0.outputs[op.index].dataLen, IsCellbase(r.value.0)));
          }
        }
      }
    }
  }

  lemma {:induction false} EntryKnown(u: Outputs, x: Index, op: OutPoint)
    requires OpsKnown(u, x) && op in x.ops
    ensures op.txHash in u && op.index < |u[op.txHash]|
  {
  }

  method DetachBlock(ghost u: Outputs, txn: IndexerTransaction, locks: set<Hash>, c: Columns, b: Block)
    requires OpsKnown(u, txn.cols) && Answers(u, c) && Says(u, b)
    modifies txn
    ensures txn.cols == DetachTxs(old(txn.cols), locks, c, b, 0)
  {
    hide DetachTx, OpsKnown, Answers;
    for i := |b.txs| downto 0
      invariant txn.cols == DetachTxs(old(txn.cols), locks, c, b, i)
    {
      DetachKnown(u, old(txn.cols), locks, c, b, i + 1);
      DetachTransaction(u, txn, locks, c, b.number, b.txs[i]);
    }
  }

  /**
    Detaches blocks from a state that has left the main chain until the main chain is reached.
    Exact rows stay exact if and only if no detached block is a loss for the lock; a stray stays one.
   */
  method Unwind(ghost g: Block, ghost u: Outputs, c: Columns, txn: IndexerTransaction, lock: Hash, st: IndexState,
                ghost stray: bool) returns (st': IndexState)
    requires Tree(g, c.blocks) && c.tip in c.blocks && Snapshot(g, u, c)
    requires OpsKnown(u, txn.cols) && Placed(g, c.blocks, st) && !OnMain(g, c, st)
    modifies txn
    ensures Within(u, {lock}, old(txn.cols), txn.cols)
    ensures OnMain(g, c, st') && st'.number < st.number && st' == Back(g, c, st)
    ensures Held(Scan([g]), old(txn.cols), lock, Scan(Path(g, c.blocks, st.hash)), stray) ==>
              BackAt(g, c, txn.cols, lock, st', stray, Loses(g, c, lock, st))
  {
    hide Snapshot, Tree, Shared, Path, Scan, Doubtful, AllBacked, OpsKnown, Matches, Within, Says, ScanOk, Answers,
         DetachTxs, Unwound, Held, RespendsFrom;
    ghost var p, m := Path(g, c.blocks, st.hash), MainPath(g, c);
    ghost var k := Shared(p, m);
    Parts(g, u, c, st);
    SnapshotAnswers(g, u, c);
    MainSays(g, u, c, st.hash);
    assert p[..1] == [g];
    ghost var held := Held(Scan([g]), txn.cols, lock, Scan(p), stray);
    ForkBacked(g, u, c, p, k);
    if held { UnwindStart(txn.cols, lock, p, k, stray); }
    var block := c.blocks[st.hash];
    WalkTest(g, u, c, st.hash, block.number);
    UnwindStep(u, c, old(txn.cols), txn.cols, lock, p, k, block.number, held, stray);
    DetachBlock(u, txn, {lock}, c, block);
    while !(block.number - 1 in c.hashOf && c.hashOf[block.number - 1] == block.parent)
      invariant k <= block.number < |p| && block == p[block.number]
      invariant OpsKnown(u, txn.cols) && Within(u, {lock}, old(txn.cols), txn.cols)
      invariant held ==> Unwound(p, k, block.number, txn.cols, lock, stray)
      decreases block.number
    {
      WalkTest(g, u, c, st.hash, block.number);
      block := c.blocks[block.parent];
      WalkTest(g, u, c, st.hash, block.number);
      UnwindStep(u, c, old(txn.cols), txn.cols, lock, p, k, block.number, held, stray);
      DetachBlock(u, txn, {lock}, c, block);
    }
    WalkTest(g, u, c, st.hash, block.number);
    st' := IndexState(block.number - 1, block.parent);
    assert m[k - 1] == m[..k][k - 1] == p[..k][k - 1] == p[k - 1];
    if held { UnwindEnd(txn.cols, lock, p, k, stray); }
  }

  // ---------------------------------------------------------------- sums over rows

  /** The sum of a table of amounts. */
  ghost function Sum<T>(m: map<T, nat>): nat
    decreases |m|
  {
    if m == map[] then 0 else
    var k :| k in m;
    assert |m - {k}| < |m| by { Fewer(m, k); }
    m[k] + Sum(m - {k})
  }

  lemma {:induction false} Fewer<T>(m: map<T, nat>, k: T)
    requires k in m
    ensures |m - {k}| == |m| - 1
  {
    assert (m - {k}).Keys == m.Keys - {k};
  }

  /** The order of summation does not matter. */
  lemma {:induction false} SumSplit<T>(m: map<T, nat>, k: T)
    requires k in m
    ensures Sum(m) == m[k] + Sum(m - {k})
    decreases |m|
  {
    var j :| j in m && Sum(m) == m[j] + Sum(m - {j});
    if j != k {
      Fewer(m, j);
      Fewer(m, k);
      SumSplit(m - {j}, k);
      SumSplit(m - {k}, j);
      assert m - {j} - {k} == m - {k} - {j};
    }
  }

  function LockRows(x: Index, lock: Hash): map<Key, nat> {
    map key | key in x.live && key.lock == lock :: x.live[key].output.capacity
  }

  /** The two tables list the same amounts, one for one. */
  ghost predicate Paired<K(!new), L(!new)>(a: map<K, nat>, b: map<L, nat>, f: map<K, L>) {
    && f.Keys == a.Keys
    && (forall k :: k in f ==> f[k] in b && b[f[k]] == a[k])
    && (forall k, k' :: k in f && k' in f && f[k] == f[k'] ==> k == k')
    && (forall l :: l in b ==> exists k :: k in f && f[k] == l)
  }

  lemma {:induction false} PairedRest<K(!new), L(!new)>(a: map<K, nat>, b: map<L, nat>, f: map<K, L>, k: K)
    requires Paired(a, b, f) && k in a
    ensures Paired(a - {k}, b - {f[k]}, f - {k})
  {
    forall l | l in b - {f[k]} ensures exists k' :: k' in f - {k} && (f - {k})[k'] == l {
      var k' :| k' in f && f[k'] == l;
      assert k' in f - {k};
    }
  }

  lemma {:induction false} PairedSums<K(!new), L(!new)>(a: map<K, nat>, b: map<L, nat>, f: map<K, L>)
    requires Paired(a, b, f)
    ensures Sum(a) == Sum(b) && |a| == |b|
    decreases |a|
  {
    hide Sum;
    if a == map[] {
      assert b == map[];
      SumNone<K>();
      SumNone<L>();
    } else {
      var k :| k in a;
      PairedRest(a, b, f, k);
      hide Paired;
      SumSplit(a, k);
      SumSplit(b, f[k]);
      Fewer(a, k);
      Fewer(b, f[k]);
      PairedSums(a - {k}, b - {f[k]}, f - {k});
    }
  }

  lemma {:induction false} SumNone<T>()
    ensures Sum<T>(map[]) == 0
  {
  }

  /** A sum that does not fit 64 bits stops the node. */
  datatype CapacityAnswer = NotIndexed | Overflow | Capacity(capacity: nat, cells: nat, number: nat)

  // ---------------------------------------------------------------- the rows of a removed lock

  method DeleteLiveRows(txn: IndexerTransaction, lock: Hash)
    modifies txn
    ensures var keys := set key | key in old(txn.cols).live && key.lock == lock;
            txn.cols == old(txn.cols).(live := old(txn.cols).live - keys, ops := old(txn.cols).ops - OpsOf(keys))
  {
    ghost var x := txn.cols;
    var keys := set key | key in txn.cols.live && key.lock == lock;
    ghost var all := keys;
    while keys != {}
      invariant keys <= all
      invariant txn.cols == x.(live := x.live - (all - keys), ops := x.ops - OpsOf(all - keys))
      decreases |keys|
    {
      hide OpsOf;
      var key :| key in keys;
      RemoveOne(x, all, keys, key);
      txn.cols := txn.cols.(live := txn.cols.live - {key});
      txn.cols := txn.cols.(ops := txn.cols.ops - {key.op});
      keys := keys - {key};
    }
    assert all - keys == all;
  }

  method DeleteTransactionRows(txn: IndexerTransaction, lock: Hash)
    modifies txn
    ensures var keys := set key | key in old(txn.cols).txs && key.lock == lock;
            txn.cols == old(txn.cols).(txs := old(txn.cols).txs - keys)
  {
    ghost var x := txn.cols;
    var keys := set key | key in txn.cols.txs && key.lock == lock;
    ghost var all := keys;
    while keys != {}
      invariant keys <= all && txn.cols == x.(txs := x.txs - (all - keys))
      decreases |keys|
    {
      var key :| key in keys;
      assert all - (keys - {key}) == all - keys + {key};
      assert x.txs - (all - keys) - {key} == x.txs - (all - keys + {key});
      txn.cols := txn.cols.(txs := txn.cols.txs - {key});
      keys := keys - {key};
    }
    assert all - keys == all;
  }

  // ---------------------------------------------------------------- the store

  class IndexerStore {
    const batchSize: nat
    var db: Index
    /** The locks that were indexed from block 0 on since their last insertion, and whose rows are exact. */
    ghost var followed: set<Hash>
    /** The others that were indexed from block 0 on: a run left them with a wrong row of a cell that genesis spent. */
    ghost var strays: set<Hash>

    constructor (batchSize: nat)
      ensures this.batchSize == batchSize && db == Index(map[], map[], map[], map[]) && followed == strays == {}
    {
      this.batchSize := batchSize;
      db := Index(map[], map[], map[], map[]);
      followed, strays := {}, {};
    }

    ghost predicate Sound(g: Block, u: Outputs, blocks: map<Hash, Block>)
      requires Tree(g, blocks)
      reads this
    {
      IndexOk(g, u, blocks, db, followed, strays)
    }

    /** Takes every state that has left the main chain back to it; some followed locks may become strays. */
    method DetachForked(ghost g: Block, ghost u: Outputs, c: Columns)
      requires Tree(g, c.blocks) && c.tip in c.blocks && Snapshot(g, u, c) && Sound(g, u, c.blocks)
      modifies this`db, this`followed, this`strays
      ensures Sound(g, u, c.blocks) && db.states.Keys == old(db.states.Keys)
      ensures followed == old(followed) - Disturbed(g, c, old(db.states))
      ensures strays == old(strays) + old(followed) * Disturbed(g, c, old(db.states))
      ensures AllLive(Scan([g]), db, old(followed) * Disturbed(g, c, old(db.states)))
      ensures forall lock :: lock in db.states ==> OnMain(g, c, db.states[lock])
      ensures TakenBack(g, c, old(db.states), db.states)
    {
      hide Snapshot, Tree, Path, Placed, OnMain, Back, Loses, AllLive, Scan, IndexOk, Partly, Disturbed, TakenBack;
      var todo := set lock | lock in db.states &&
                    !(db.states[lock].hash in c.numberOf && c.numberOf[db.states[lock].hash] == db.states[lock].number);
      AllPlaced(g, u, c.blocks, db, followed, strays);
      PartlyStart(g, u, c, db.states, todo);
      LostOffMain(g, c, db.states, todo);
      ghost var lost := Disturbed(g, c, db.states);
      assert old(followed) * (lost - todo) == {};
      NoneLive(Scan([g]), db);
      while todo != {}
        invariant Sound(g, u, c.blocks) && Partly(g, c, old(db.states), db.states, todo)
        invariant followed == old(followed) - (lost - todo) && strays == old(strays) + old(followed) * (lost - todo)
        invariant AllLive(Scan([g]), db, old(followed) * (lost - todo))
        decreases |todo|
      {
        var lock :| lock in todo;
        LostHere(g, c, old(db.states), db.states, todo, lock);
        IsPlaced(g, u, c.blocks, db, followed, strays, lock);
        ghost var states, was, done := db.states, followed, old(followed) * (lost - todo);
        UnwindLock(g, u, c, lock, done);
        PartlyStep(g, c, old(db.states), states, todo, lock, db.states[lock]);
        LostSets(old(followed), old(strays), lost, todo, lock, was, followed);
        todo := todo - {lock};
      }
      assert lost - todo == lost;
      PartlyEnd(g, c, old(db.states), db.states);
    }

    /** One lock, in a transaction of its own. */
    method UnwindLock(ghost g: Block, ghost u: Outputs, c: Columns, lock: Hash, ghost done: set<Hash>)
      requires Tree(g, c.blocks) && c.tip in c.blocks && Snapshot(g, u, c) && Sound(g, u, c.blocks)
      requires lock in db.states && Placed(g, c.blocks, db.states[lock]) && !OnMain(g, c, db.states[lock])
      requires db.states[lock].hash in c.blocks && AllLive(Scan([g]), db, done) && lock !in done
      modifies this`db, this`followed, this`strays
      ensures Sound(g, u, c.blocks)
      ensures db.states == old(db.states)[lock := Back(g, c, old(db.states)[lock])] && OnMain(g, c, db.states[lock])
      ensures followed == if Loses(g, c, lock, old(db.states)[lock]) then old(followed) - {lock} else old(followed)
      ensures strays == old(strays) + (old(followed) - followed)
      ensures AllLive(Scan([g]), db, done + (old(followed) - followed))
    {
      hide Snapshot, Tree, Path, Placed, OpsKnown, Matches, Within, OnMain, Back, Loses, AllLive, Scan, IndexOk,
           BackAt, Held;
      IsPlaced(g, u, c.blocks, db, followed, strays, lock);
      if lock in followed + strays { HeldOff(g, u, c, db, followed, strays, lock); }
      var txn := new IndexerTransaction(db);
      var st := Unwind(g, u, c, txn, lock, db.states[lock], lock in strays);
      ghost var loses := Loses(g, c, lock, db.states[lock]);
      ghost var more := if loses then followed * {lock} else {};
      UnwindKeeps(g, u, c, db, txn.cols, lock, st, followed, strays, loses);
      if lock in more { BackLive(g, c, txn.cols, lock, st, lock in strays); }
      LiveElsewhere(Scan([g]), u, db, txn.cols, lock, done, more, db.states[lock := st]);
      SameStates(u, {lock}, db, txn.cols);
      db := txn.cols.(states := txn.cols.states[lock := st]);
      followed, strays := followed - more, strays + more;
      assert old(followed) - followed == more;
    }

    method LowestState() returns (lo: nat)
      requires db.states != map[]
      ensures forall lock :: lock in db.states ==> lo <= db.states[lock].number
      ensures exists lock :: lock in db.states && db.states[lock].number == lo
    {
      var first :| first in db.states;
      lo := db.states[first].number;
      ghost var least := first;
      var rest := db.states.Keys - {first};
      while rest != {}
        invariant rest <= db.states.Keys && least in db.states && db.states[least].number == lo
        invariant forall lock :: lock in db.states && lock !in rest ==> lo <= db.states[lock].number
        decreases |rest|
      {
        var lock :| lock in rest;
        if db.states[lock].number < lo { lo, least := db.states[lock].number, lock; }
        rest := rest - {lock};
      }
    }

    /**
      Attaches at most a batch of blocks, from the one after the lowest state. If it attaches
      anything, the strays that are at block 0 are followed again.
     */
    method AttachBatch(ghost g: Block, ghost u: Outputs, c: Columns, ghost healing: set<Hash>, ghost live: set<Hash>)
      requires Tree(g, c.blocks) && c.tip in c.blocks && Snapshot(g, u, c) && Sound(g, u, c.blocks)
      requires db.states != map[] && forall lock :: lock in db.states ==> OnMain(g, c, db.states[lock])
      requires healing == set lock | lock in strays && batchSize > 0 && lock in db.states && db.states[lock].number == 0
      requires AllLive(Scan([g]), db, live) && (batchSize > 0 ==> AllUnhealed(g, c, db.states, live))
      modifies this`db, this`followed, this`strays
      ensures Sound(g, u, c.blocks) && db.states.Keys == old(db.states.Keys)
      ensures followed == old(followed) + healing && strays == old(strays) - healing
      ensures AllLive(Scan([g]), db, live)
      ensures forall lock :: lock in db.states ==> OnMain(g, c, db.states[lock])
      ensures batchSize > 0 ==> UpToDate(g, c, db, followed)
      ensures exists lo ::
                && Lowest(old(db.states), lo)
                && Advanced(old(db.states), db.states, Reach(lo, batchSize, |MainPath(g, c)|))
    {
      hide Snapshot, Tree, Path, UpToDate, OnMain, Advanced, Start, Reach, Scan, AllUnhealed, AllLive, InBatch, IndexOk,
           AttachTxs;
      var states := db.states;
      var lo := LowestState();
      var start := Start(lo);
      var tip := c.blocks[c.tip].number;
      var txn := new IndexerTransaction(db);
      IsDisjoint(g, u, c.blocks, db, followed, strays);
      BatchRange(g, c, db.states, lo, batchSize);
      ghost var all, rest := followed + healing, strays - healing;
      if batchSize > 0 { BatchStart(g, u, c, db, followed, strays, healing, live, lo); }
      var end := Reach(lo, batchSize, tip + 1);
      assert db.(states := db.states) == db;
      for n := start to end
        invariant db == old(db) && followed == old(followed) && strays == old(strays) && states.Keys == db.states.Keys
        invariant n == start ==> txn.cols == db && states == db.states
        invariant batchSize > 0 ==> InBatch(g, u, c, db.states, txn.cols, states, all, rest, live, n)
      {
        MainAt(g, u, c, n);
        BatchStep(g, u, c, db.states, txn.cols, states, all, rest, live, n);
        var b := c.blocks[c.hashOf[n]];
        var locks := set lock | lock in states && states[lock].number <= n;
        assert locks == Behind(states, n);
        AttachBlock(txn, locks, b);
        ghost var next := Advance(states, n, b.hash);
        states := map lock | lock in states :: if lock in locks then IndexState(n, b.hash) else states[lock];
        assert states == next;
      }
      if batchSize > 0 {
        BatchEnd(g, u, c, db.states, txn.cols, states, all, rest, live, end);
      } else {
        assert all == followed && rest == strays;
      }
      db, followed, strays := txn.cols.(states := states), all, rest;
      assert Lowest(old(db.states), lo);
    }

    /**
      `sync_index_states` on one snapshot: locks whose state has left the main chain are taken
      back to where it forked off, then at most a batch of blocks is attached. Of the locks that
      were indexed from block 0 on, all but the lost ones have exact rows afterwards, and only those.
     */
    method SyncIndexStates(ghost g: Block, ghost u: Outputs, c: Columns)
      requires Tree(g, c.blocks) && c.tip in c.blocks && Snapshot(g, u, c) && Sound(g, u, c.blocks)
      modifies this`db, this`followed, this`strays
      ensures Sound(g, u, c.blocks) && db.states.Keys == old(db.states.Keys)
      ensures followed == old(followed) + old(strays) - Lost(g, c, batchSize, old(db.states), old(strays))
      ensures strays == (old(followed) + old(strays)) * Lost(g, c, batchSize, old(db.states), old(strays))
      ensures forall lock :: lock in old(followed) + old(strays) ==>
                && lock in old(db.states) && old(db.states)[lock].hash in c.blocks
                && (Exact(g, c.blocks, db, lock) <==>
                    EndsExact(g, c, batchSize, lock, old(db.states)[lock], lock in old(strays)))
      ensures AllLive(Scan([g]), db, old(followed) * LeftLive(g, c, batchSize, old(db.states)))
      ensures forall lock :: lock in db.states ==> OnMain(g, c, db.states[lock])
      ensures batchSize > 0 ==> UpToDate(g, c, db, followed)
      ensures Synced(g, c, batchSize, old(db.states), db.states)
    {
      hide Snapshot, Tree, Path, Matches, Tidy, OnMain, OpsKnown, Placed, Advanced, Lowest, Reach, TakenBack, Exact,
           IndexOk, AllUnhealed, AllLive, Scan, Disturbed, LeftLive, EndsExact, UpToDate;
      AllIndexed(g, u, c.blocks, db, followed, strays);
      if db.states == map[] {
        NothingToLose(g, u, c, batchSize, db, followed, strays);
        return;
      }
      DetachForked(g, u, c);
      ghost var mid := db.states;
      ghost var live := old(followed) * LeftLive(g, c, batchSize, old(db.states));
      ghost var healing := set lock | lock in strays && batchSize > 0 && lock in mid && mid[lock].number == 0;
      HealedSets(g, c, batchSize, old(db.states), mid, old(followed), old(strays), healing);
      LeftLiveSets(g, c, batchSize, old(db.states), mid, db, old(followed));
      AttachBatch(g, u, c, healing, live);
      ghost var lo :| Lowest(mid, lo) && Advanced(mid, db.states, Reach(lo, batchSize, |MainPath(g, c)|));
      assert SyncedVia(g, c, batchSize, old(db.states), mid, lo, db.states);
      ExactlyFollowed(g, u, c.blocks, db, followed, strays);
    }

    /** A lock that is not indexed yet and starts at block 0 is followed from then on. */
    method InsertLockHash(ghost g: Block, ghost u: Outputs, c: Columns, lock: Hash,
                          from: Option<nat>) returns (st: IndexState)
      requires Tree(g, c.blocks) && c.tip in c.blocks && Snapshot(g, u, c) && Sound(g, u, c.blocks)
      modifies this`db, this`followed, this`strays
      ensures Sound(g, u, c.blocks) && strays == old(strays) - {lock} && OnMain(g, c, st)
      ensures db == old(db).(states := old(db).states[lock := st])
      ensures st.number == FirstNumber(from, |MainPath(g, c)|)
      ensures st.number == if from.Some? && from.value < |MainPath(g, c)| then from.value else |MainPath(g, c)| - 1
      ensures followed ==
              if st.number == 0 && lock !in old(db.states) then old(followed) + {lock} else old(followed) - {lock}
    {
      hide Snapshot, Tree, Path, Matches, OpsKnown, Tidy, Exact;
      var tip := c.blocks[c.tip].number;
      var want := if from.Some? then from.value else tip;
      var number := if want < tip then want else tip;
      MainAt(g, u, c, number);
      st := IndexState(number, c.hashOf[number]);
      MainStored(g, u, c, number);
      InsertKeeps(g, u, c, db, lock, st, followed, strays);
      followed := if st.number == 0 && lock !in db.states then followed + {lock} else followed - {lock};
      strays := strays - {lock};
      db := db.(states := db.states[lock := st]);
    }

    /** The out-point rows of consumed cells stay behind. */
    method RemoveLockHash(ghost g: Block, ghost u: Outputs, ghost blocks: map<Hash, Block>, lock: Hash)
      requires Tree(g, blocks) && Sound(g, u, blocks)
      modifies this`db, this`followed, this`strays
      ensures Sound(g, u, blocks) && followed == old(followed) - {lock} && strays == old(strays) - {lock}
      ensures db == Removed(old(db), lock) && db.states == old(db).states - {lock}
      ensures forall key :: key in db.live <==> key in old(db).live && key.lock != lock
      ensures forall key :: key in db.txs <==> key in old(db).txs && key.lock != lock
      ensures forall key :: key in db.live ==> db.live[key] == old(db).live[key]
      ensures forall key :: key in db.txs ==> db.txs[key] == old(db).txs[key]
    {
      hide IndexOk, Tree, OpsOf;
      RemoveKeeps(g, u, blocks, db, lock, followed, strays);
      var txn := new IndexerTransaction(db);
      DeleteLiveRows(txn, lock);
      DeleteTransactionRows(txn, lock);
      txn.cols := txn.cols.(states := txn.cols.states - {lock});
      db, followed, strays := txn.cols, followed - {lock}, strays - {lock};
    }

    /** The capacity of a lock's live cells, how many there are, and up to which block. */
    method GetCapacity(lock: Hash) returns (r: CapacityAnswer)
      ensures r.NotIndexed? <==> lock !in db.states
      ensures r.Overflow? <==> lock in db.states && Sum(LockRows(db, lock)) >= U64_LIMIT
      ensures r.Capacity? ==>
                && r.capacity == Sum(LockRows(db, lock)) && r.cells == |LockRows(db, lock)|
                && r.number == db.states[lock].number
    {
      if lock !in db.states { return NotIndexed; }
      var rows := LockRows(db, lock);
      var rest := rows;
      var capacity, cells := 0, 0;
      while rest != map[]
        invariant rest.Keys <= rows.Keys && forall key :: key in rest ==> rest[key] == rows[key]
        invariant capacity + Sum(rest) == Sum(rows) && cells + |rest| == |rows| && capacity < U64_LIMIT
        decreases |rest|
      {
        var key :| key in rest;
        SumSplit(rest, key);
        Fewer(rest, key);
        if capacity + rest[key] >= U64_LIMIT { return Overflow; }
        capacity, cells := capacity + rest[key], cells + 1;
        rest := rest - {key};
      }
      return Capacity(capacity, cells, db.states[lock].number);
    }
  }
}
