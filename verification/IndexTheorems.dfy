/**
  The indexer beside the chain service: over any interleaving of arriving blocks, sync runs,
  and locks added or removed, the rows of a lock indexed from block 0 are those of a scan, from
  when a sync run takes back a block that spent a cell of the lock which genesis had spent until a
  run takes the lock back to block 0 excepted.
 */
module IndexTheorems {
  import opened Types
  import opened Ledger
  import opened Store
  import opened BlockTree
  import opened IndexBook
  import opened IndexColumns
  import opened IndexSync
  import opened Indexer
  import opened Chain
  import opened ChainTheorems
  import MainChain
  import Admission

  // ---------------------------------------------------------------- ledgers and scans

  ghost predicate Tally(s: Book, r: State, gs: set<OutPoint>) {
    && (forall op :: op in s.created ==> Created(r, op))
    && (forall h, j :: h in r.txs && 0 <= j < |r.txs[h].tx.outputs| ==> OutPoint(h, j) in s.created)
    && (forall op :: op in s.spent <==> op in r.spent || op in gs)
  }

  lemma {:induction false} TallyFits(s: Book, r: State, gs: set<OutPoint>, b: Block, i: nat)
    requires Tally(s, r, gs) && i < |b.txs| && b.number > 0 && TxOk(r, RecAt(b, i))
    ensures TxFits(s, b.txs[i])
    ensures forall k :: 0 <= k < SpendCount(b.txs[i]) ==>
              var op := b.txs[i].inputs[k].previous; op in s.created && (op in s.spent ==> op in gs)
  {
    var tx := b.txs[i];
    forall k | 0 <= k < SpendCount(tx)
      ensures tx.inputs[k].previous in s.created && tx.inputs[k].previous !in r.spent
    {
      var op := tx.inputs[k].previous;
      assert InputPts(tx)[k] == op;
      assert op in Spends(RecAt(b, i));
      assert OutPoint(op.txHash, op.index) == op;
    }
  }

  lemma {:induction false} TallyStep(s: Book, r: State, gs: set<OutPoint>, b: Block, i: nat)
    requires Tally(s, r, gs) && i < |b.txs| && b.number > 0 && TxOk(r, RecAt(b, i))
    ensures Tally(BookTx(s, b.number, b.txs[i]), ApplyTx(r, RecAt(b, i)), gs)
  {
    TallyFits(s, r, gs, b, i);
    hide BookTx, ApplyTx, TxOk, TxFits, Spends, Elems, IsCellbase, SpendCount;
    TallyCreated(s, r, gs, b, i);
    forall op ensures op in BookTx(s, b.number, b.txs[i]).spent <==> op in ApplyTx(r, RecAt(b, i)).spent || op in gs {
      TallySpent(s, r, gs, b, i, op);
    }
  }

  lemma {:induction false} TallyCreated(s: Book, r: State, gs: set<OutPoint>, b: Block, i: nat)
    requires Tally(s, r, gs) && i < |b.txs| && b.number > 0 && TxOk(r, RecAt(b, i)) && TxFits(s, b.txs[i])
    ensures var t, q := BookTx(s, b.number, b.txs[i]), ApplyTx(r, RecAt(b, i));
            && (forall op :: op in t.created ==> Created(q, op))
            && (forall h, j :: h in q.txs && 0 <= j < |q.txs[h].tx.outputs| ==> OutPoint(h, j) in t.created)
  {
    var tx := b.txs[i];
    BookInputsAre(s, b.number, tx, SpendCount(tx));
    BookOutputsAre(BookInputs(s, b.number, tx, SpendCount(tx)), b.number, tx, |tx.outputs|);
    hide BookInputs, BookOutputs, TxOk, TxFits, Spends, Elems, IsCellbase, SpendCount, SpendsOp;
    var t, q := BookTx(s, b.number, tx), ApplyTx(r, RecAt(b, i));
    forall op | op in t.created ensures Created(q, op) { }
  }

  lemma {:induction false} TallySpent(s: Book, r: State, gs: set<OutPoint>, b: Block, i: nat, op: OutPoint)
    requires Tally(s, r, gs) && i < |b.txs| && b.number > 0 && TxOk(r, RecAt(b, i))
    ensures op in BookTx(s, b.number, b.txs[i]).spent <==> op in ApplyTx(r, RecAt(b, i)).spent || op in gs
  {
    var tx := b.txs[i];
    TallyFits(s, r, gs, b, i);
    BookInputsAre(s, b.number, tx, SpendCount(tx));
    BookOutputsAre(BookInputs(s, b.number, tx, SpendCount(tx)), b.number, tx, |tx.outputs|);
    hide BookInputs, BookOutputs, TxOk, TxFits, Spends, Elems, IsCellbase, SpendCount;
    SpendsAre(b, i, op);
    assert SpendsOp(tx, SpendCount(tx), op) ==> op in s.created;
  }

  lemma {:induction false} SpendsAre(b: Block, i: nat, op: OutPoint)
    requires i < |b.txs| && b.number > 0
    ensures op in Elems(Spends(RecAt(b, i))) <==> SpendsOp(b.txs[i], SpendCount(b.txs[i]), op)
  {
    var tx := b.txs[i];
    if SpendsOp(tx, SpendCount(tx), op) {
      var k :| 0 <= k < SpendCount(tx) && tx.inputs[k].previous == op;
      assert InputPts(tx)[k] == op;
    }
  }

  predicate InputsFitUpTo(s: Book, gs: set<OutPoint>, b: Block, n: nat)
    requires n <= |b.txs|
  {
    forall i :: 0 <= i < n ==> InputsFitAt(s, gs, b, i)
  }

  lemma {:induction false} BlockTally(s: Book, r: State, gs: set<OutPoint>, b: Block, n: nat)
    requires Tally(s, r, gs) && b.number > 0 && n <= |b.txs| && TxsOk(r, b, n)
    ensures TxsFit(s, b, n) && Tally(BookTxs(s, b, n), ApplyTxs(r, b, n), gs) && InputsFitUpTo(s, gs, b, n)
  {
    hide Tally, TxOk, TxFits, BookTx, ApplyTx, InputsFitAt;
    if n > 0 {
      hide BookTxs, ApplyTxs, InputsFitUpTo;
      BlockTally(s, r, gs, b, n - 1);
      BlockTallyStep(s, r, gs, b, n - 1);
    }
  }

  lemma {:induction false} BlockTallyStep(s: Book, r: State, gs: set<OutPoint>, b: Block, n: nat)
    requires n < |b.txs| && b.number > 0 && Tally(BookTxs(s, b, n), ApplyTxs(r, b, n), gs)
    requires TxOk(ApplyTxs(r, b, n), RecAt(b, n)) && InputsFitUpTo(s, gs, b, n)
    ensures TxFits(BookTxs(s, b, n), b.txs[n]) && Tally(BookTxs(s, b, n + 1), ApplyTxs(r, b, n + 1), gs)
    ensures InputsFitUpTo(s, gs, b, n + 1)
  {
    hide Tally, TxOk, BookTx, ApplyTx, TxFits;
    TallyFits(BookTxs(s, b, n), ApplyTxs(r, b, n), gs, b, n);
    TallyStep(BookTxs(s, b, n), ApplyTxs(r, b, n), gs, b, n);
    assert InputsFitAt(s, gs, b, n);
    hide InputsFitAt;
  }

  lemma {:induction false} TallyGenesis(g: Block, n: nat)
    requires g.number == 0 && n <= |g.txs| && TxsOk(EMPTY, g, n)
    ensures TxsFit(BLANK, g, n) && Tally(BookTxs(BLANK, g, n), ApplyTxs(EMPTY, g, n), BookTxs(BLANK, g, n).spent.Keys)
  {
    hide Tally, TxOk, TxFits, BookTx, ApplyTx;
    TallyNothing();
    if n > 0 {
      hide BookTxs, ApplyTxs;
      TallyGenesis(g, n - 1);
      GenesisSpendsNothing(g, n - 1);
      TallyGenesisStep(g, n - 1);
    }
  }

  lemma {:induction false} TallyNothing()
    ensures Tally(BLANK, EMPTY, BLANK.spent.Keys)
  {
  }

  lemma {:induction false} TallyGenesisStep(g: Block, n: nat)
    requires g.number == 0 && n < |g.txs| && ApplyTxs(EMPTY, g, n).spent == {}
    requires Tally(BookTxs(BLANK, g, n), ApplyTxs(EMPTY, g, n), BookTxs(BLANK, g, n).spent.Keys)
    requires TxOk(ApplyTxs(EMPTY, g, n), RecAt(g, n))
    ensures TxFits(BookTxs(BLANK, g, n), g.txs[n])
    ensures Tally(BookTxs(BLANK, g, n + 1), ApplyTxs(EMPTY, g, n + 1), BookTxs(BLANK, g, n + 1).spent.Keys)
  {
    hide Tally, TxOk, TxFits, BookTx, ApplyTx;
    GenesisTally(BookTxs(BLANK, g, n), ApplyTxs(EMPTY, g, n), g, n);
  }

  lemma {:induction false} GenesisTally(s: Book, r: State, g: Block, i: nat)
    requires g.number == 0 && i < |g.txs| && r.spent == {} && Tally(s, r, s.spent.Keys) && TxOk(r, RecAt(g, i))
    ensures var t := BookTx(s, 0, g.txs[i]); TxFits(s, g.txs[i]) && Tally(t, ApplyTx(r, RecAt(g, i)), t.spent.Keys)
  {
    var tx := g.txs[i];
    BookInputsAre(s, 0, tx, SpendCount(tx));
    BookOutputsAre(BookInputs(s, 0, tx, SpendCount(tx)), 0, tx, |tx.outputs|);
    hide BookInputs, BookOutputs;
  }

  lemma {:induction false} GenesisSpendsNothing(g: Block, n: nat)
    requires g.number == 0 && n <= |g.txs|
    ensures ApplyTxs(EMPTY, g, n).spent == {}
  {
    if n > 0 { GenesisSpendsNothing(g, n - 1); }
  }

  lemma {:induction false} JustGenesis(g: Block)
    requires g.number == 0 && LedgerOk([g]) && Admission.Ordered(g)
    ensures ScanOk([g]) && Tally(Scan([g]), Replay([g]), GenesisSpent([g]))
  {
    assert [g][..0] == [] && [g][0] == g && [g][..1] == [g];
    assert Scan([]) == BLANK && Replay([]) == EMPTY;
    TallyGenesis(g, |g.txs|);
  }

  /** A chain of ordered blocks that obeys the ledger can be scanned; the scan also counts what genesis spends. */
  lemma {:induction false} LedgerScans(p: seq<Block>)
    requires MainChain.Numbered(p) && LedgerOk(p) && p != [] && forall i :: 0 <= i < |p| ==> Admission.Ordered(p[i])
    ensures ScanOk(p) && Tally(Scan(p), Replay(p), GenesisSpent(p))
  {
    var q, b := p[..|p| - 1], p[|p| - 1];
    if q == [] {
      assert p == [b];
      JustGenesis(b);
    } else {
      hide Tally, TxsFit, TxsOk, BookTxs, ApplyTxs, Admission.Ordered;
      LedgerScans(q);
      assert q[..1] == p[..1];
      BlockTally(Scan(q), Replay(q), GenesisSpent(q), b, |b.txs|);
    }
  }

  // ---------------------------------------------------------------- the store as a snapshot

  /** The outputs behind the transaction hashes of these blocks. */
  ghost function OutputsOf(bs: set<Block>): Outputs
    requires Admission.CollisionFree(bs)
  {
    map b, i | b in bs && 0 <= i < |b.txs| :: b.txs[i].hash := b.txs[i].outputs
  }

  lemma {:induction false} OutputsSay(bs: set<Block>, b: Block)
    requires Admission.CollisionFree(bs) && b in bs
    ensures Says(OutputsOf(bs), b)
  {
  }

  lemma {:induction false} PassedOrdered(rules: Rules, p: seq<Block>, i: nat)
    requires GoodPath(rules, p) && 0 < i < |p|
    ensures Admission.Ordered(p[i])
  {
    assert PassedAt(rules, p, i);
  }

  /** The store of the chain service is a snapshot the indexer can follow. */
  lemma {:induction false} StoreIsSnapshot(g: Block, rules: Rules, u: Outputs, c: Columns)
    requires StoreOk(g, rules, c) && Admission.Ordered(g) && forall h :: h in c.blocks ==> Says(u, c.blocks[h])
    ensures Tree(g, c.blocks) && c.tip in c.blocks && Snapshot(g, u, c)
  {
    var m := Path(g, c.blocks, c.tip);
    assert GoodPath(rules, m) && MainChain.Agrees(c, m);
    hide StoreOk, GoodPath, Says, ScanOk, Admission.Ordered;
    forall i | 0 <= i < |m| ensures Admission.Ordered(m[i]) {
      if i > 0 { PassedOrdered(rules, m, i); }
    }
    LedgerScans(m);
  }

  lemma {:induction false} ServiceSnapshot(g: Block, rules: Rules, c: Columns, all: set<Block>)
    requires Admission.CollisionFree(all) && Admission.Ordered(g) && StoreOk(g, rules, c) && c.blocks.Values <= all
    ensures Tree(g, c.blocks) && c.tip in c.blocks && Snapshot(g, OutputsOf(all), c)
  {
    hide Admission.CollisionFree, Admission.Ordered, OutputsOf, Snapshot, Says, StoreOk;
    forall h | h in c.blocks ensures Says(OutputsOf(all), c.blocks[h]) {
      assert c.blocks[h] in c.blocks.Values;
      OutputsSay(all, c.blocks[h]);
    }
    StoreIsSnapshot(g, rules, OutputsOf(all), c);
  }

  lemma {:induction false} PlacedGrows(g: Block, blocks: map<Hash, Block>, b: Block, st: IndexState)
    requires Tree(g, blocks) && b.hash !in blocks && Tree(g, blocks[b.hash := b]) && Placed(g, blocks, st)
    ensures Placed(g, blocks[b.hash := b], st) && Path(g, blocks[b.hash := b], st.hash) == Path(g, blocks, st.hash)
  {
    PathStable(g, blocks, b, st.hash);
  }

  /** A block that arrives changes nothing for the indexer. */
  lemma {:induction false} IndexGrows(g: Block, u: Outputs, blocks: map<Hash, Block>, b: Block, x: Index,
                                      followed: set<Hash>, strays: set<Hash>)
    requires Tree(g, blocks) && b.hash !in blocks && Tree(g, blocks[b.hash := b])
    requires IndexOk(g, u, blocks, x, followed, strays)
    ensures IndexOk(g, u, blocks[b.hash := b], x, followed, strays)
  {
    hide Tree, Path, OpsKnown, Tidy, Matches, Placed, Held;
    forall lock | lock in x.states ensures Placed(g, blocks[b.hash := b], x.states[lock]) {
      PlacedGrows(g, blocks, b, x.states[lock]);
    }
    forall lock | lock in followed ensures Exact(g, blocks[b.hash := b], x, lock) {
      assert Exact(g, blocks, x, lock);
      PlacedGrows(g, blocks, b, x.states[lock]);
    }
    forall lock | lock in strays ensures Stray(g, blocks[b.hash := b], x, lock) {
      assert Stray(g, blocks, x, lock);
      PlacedGrows(g, blocks, b, x.states[lock]);
    }
  }

  // ---------------------------------------------------------------- any interleaving

  datatype Event = Arrive(block: Block) | Sync | Insert(lock: Hash, from: Option<nat>) | Remove(lock: Hash)

  /** The locks indexed from block 0 on: with exact rows, and with a wrong row of a cell that genesis spent. */
  datatype Locks = Locks(followed: set<Hash>, strays: set<Hash>)

  const NO_LOCKS: Locks := Locks({}, {})

  function Joined(f: Locks, lock: Hash): Locks {
    Locks(f.followed + {lock}, f.strays - {lock})
  }

  function Without(f: Locks, lock: Hash): Locks {
    Locks(f.followed - {lock}, f.strays - {lock})
  }

  function Divided(f: Locks, lost: set<Hash>): Locks {
    Locks(f.followed + f.strays - lost, (f.followed + f.strays) * lost)
  }

  function Arrivals(events: seq<Event>): set<Block> {
    set i | 0 <= i < |events| && events[i].Arrive? :: events[i].block
  }

  /**
    What an event does: to the chain store (c to d), to the index (x to y), and to the locks
    (f to h). A lock starts to be followed when it is inserted at block 0 while not indexed; it
    stops when it is inserted again or removed. Until then a sync run may make it a stray, or a
    stray followed again.
   */
  ghost predicate Traced(g: Block, rules: Rules, batchSize: nat, e: Event, c: Columns, x: Index, f: Locks,
                         d: Columns, y: Index, h: Locks) {
    && Reached(g, rules, c)
    && match e
       case Arrive(b) => Stepped(g, rules, c, b, d) && y == x && h == f
       case Sync =>
         && d == c && h == Divided(f, Lost(g, c, batchSize, x.states, f.strays)) && y.states.Keys == x.states.Keys
         && Synced(g, c, batchSize, x.states, y.states) && (batchSize > 0 ==> UpToDate(g, c, y, h.followed))
         && AllLive(Scan([g]), y, f.followed * LeftLive(g, c, batchSize, x.states))
       case Insert(lock, from) =>
         && d == c && lock in y.states && y == x.(states := x.states[lock := y.states[lock]])
         && OnMain(g, c, y.states[lock]) && y.states[lock].number == FirstNumber(from, |MainPath(g, c)|)
         && h == if y.states[lock].number == 0 && lock !in x.states then Joined(f, lock) else Without(f, lock)
       case Remove(lock) => d == c && y == Removed(x, lock) && h == Without(f, lock)
  }

  /** The states that a run goes through, from the genesis store and an empty index on. */
  ghost predicate Trace(g: Block, rules: Rules, batchSize: nat, events: seq<Event>, cs: seq<Columns>, xs: seq<Index>,
                        fs: seq<Locks>) {
    && 0 < |cs| <= |events| + 1 && |xs| == |cs| && |fs| == |cs|
    && cs[0] == InitColumns(g) && xs[0] == NO_ROWS && fs[0] == NO_LOCKS
    && forall i :: 0 <= i < |cs| - 1 ==> TracedAt(g, rules, batchSize, events, cs, xs, fs, i)
  }

  const NO_ROWS: Index := Index(map[], map[], map[], map[])

  ghost predicate TracedAt(g: Block, rules: Rules, batchSize: nat, events: seq<Event>, cs: seq<Columns>, xs: seq<Index>,
                           fs: seq<Locks>, i: nat)
    requires i < |events| && i + 1 < |cs| && |xs| == |cs| && |fs| == |cs|
  {
    Traced(g, rules, batchSize, events[i], cs[i], xs[i], fs[i], cs[i + 1], xs[i + 1], fs[i + 1])
  }

  lemma {:induction false} TraceMore(g: Block, rules: Rules, batchSize: nat, events: seq<Event>, cs: seq<Columns>,
                                     xs: seq<Index>, fs: seq<Locks>, d: Columns, y: Index, h: Locks)
    requires Trace(g, rules, batchSize, events, cs, xs, fs) && |cs| <= |events|
    requires Traced(g, rules, batchSize, events[|cs| - 1], cs[|cs| - 1], xs[|cs| - 1], fs[|cs| - 1], d, y, h)
    ensures Trace(g, rules, batchSize, events, cs + [d], xs + [y], fs + [h])
  {
    hide Traced, InitColumns;
    var cs', xs', fs' := cs + [d], xs + [y], fs + [h];
    forall i | 0 <= i < |cs'| - 1 ensures TracedAt(g, rules, batchSize, events, cs', xs', fs', i) {
      if i < |cs| - 1 { assert TracedAt(g, rules, batchSize, events, cs, xs, fs, i); }
    }
  }

  /** As long as the store is good, the locks with exact rows are the followed ones. */
  ghost predicate ExactAt(g: Block, rules: Rules, u: Outputs, c: Columns, x: Index, f: Locks) {
    Reached(g, rules, c) ==>
      && IndexOk(g, u, c.blocks, x, f.followed, f.strays)
      && forall lock :: lock in f.followed + f.strays ==> (Exact(g, c.blocks, x, lock) <==> lock in f.followed)
  }

  lemma {:induction false} IsExactAt(g: Block, rules: Rules, u: Outputs, c: Columns, x: Index, f: Locks)
    requires Tree(g, c.blocks) && IndexOk(g, u, c.blocks, x, f.followed, f.strays)
    ensures ExactAt(g, rules, u, c, x, f)
  {
    ExactlyFollowed(g, u, c.blocks, x, f.followed, f.strays);
  }

  /** Whatever an arriving block does to the chain store, it changes nothing for the indexer. */
  lemma {:induction false} IndexStepped(g: Block, rules: Rules, u: Outputs, c: Columns, b: Block, d: Columns,
                                        x: Index, f: Locks)
    requires Tree(g, c.blocks) && Tree(g, d.blocks) && Stepped(g, rules, c, b, d)
    requires IndexOk(g, u, c.blocks, x, f.followed, f.strays)
    ensures IndexOk(g, u, d.blocks, x, f.followed, f.strays)
  {
    hide Tree, IndexOk, StoreOk, RefusedOn, Admission.NonContextualOk, Replays;
    if d.blocks != c.blocks { IndexGrows(g, u, c.blocks, b, x, f.followed, f.strays); }
  }

  ghost function LocksOf(indexer: IndexerStore): Locks
    reads indexer
  {
    Locks(indexer.followed, indexer.strays)
  }

  lemma {:induction false} ReachedFacts(g: Block, rules: Rules, c: Columns)
    requires Reached(g, rules, c)
    ensures Tree(g, c.blocks) && c.tip in c.blocks && StoreOk(g, rules, c)
  {
  }

  /** One event on the service and the indexer; the result tells whether the store is still good. */
  method Happen(service: ChainService, indexer: IndexerStore, ghost u: Outputs, ghost all: set<Block>, e: Event)
      returns (spoilt: bool)
    requires service.Valid() && Admission.CollisionFree(all) && Admission.Ordered(service.genesis)
    requires u == OutputsOf(all)
    requires Reached(service.genesis, service.rules, service.store) && Tree(service.genesis, service.store.blocks)
    requires indexer.Sound(service.genesis, u, service.store.blocks)
    requires service.store.blocks.Values <= all && (e.Arrive? ==> e.block in all)
    modifies service, indexer
    ensures service.store.blocks.Values <= all
    ensures spoilt <==> !Reached(service.genesis, service.rules, service.store)
    ensures spoilt ==> e.Arrive? && Spoils(service.genesis, service.rules, old(service.store), e.block, service.store)
    ensures !spoilt ==> service.Valid() && Tree(service.genesis, service.store.blocks)
    ensures !spoilt ==> indexer.Sound(service.genesis, u, service.store.blocks)
    ensures Traced(service.genesis, service.rules, indexer.batchSize, e,
                   old(service.store), old(indexer.db), old(LocksOf(indexer)),
                   service.store, indexer.db, LocksOf(indexer))
  {
    hide StoreOk, Tree, Snapshot, IndexOk, OutputsOf, UpToDate, Stepped, Reached, Lost, OnMain, Removed, Spoils, Synced,
         AllLive, LeftLive, Exact, EndsExact,
         Admission.CollisionFree, Admission.Ordered;
    ghost var g, rules := service.genesis, service.rules;
    ServiceSnapshot(g, rules, service.store, all);
    ghost var before := service.store;
    spoilt := false;
    match e
    case Arrive(b) =>
      spoilt := Process(service, b, all);
      if !spoilt {
        ReachedFacts(g, rules, service.store);
        IndexStepped(g, rules, u, before, b, service.store, indexer.db, LocksOf(indexer));
      }
    case Sync =>
      indexer.SyncIndexStates(g, u, service.store);
    case Insert(lock, from) =>
      var st := indexer.InsertLockHash(g, u, service.store, lock, from);
    case Remove(lock) =>
      indexer.RemoveLockHash(g, u, service.store.blocks, lock);
  }

  /**
    Any interleaving of events, from an empty indexer beside a service that holds genesis: the
    states the run goes through, one after each event, up to the first arrival that spoils the
    store. At every point, of the locks that were indexed from block 0 on, exactly the followed
    ones have exact rows; right after a sync run, exact on the main chain.
   */
  method Follow(g: Block, rules: Rules, batchSize: nat, events: seq<Event>)
      returns (cs: seq<Columns>, xs: seq<Index>, ghost fs: seq<Locks>)
    requires GenesisOk(g) && Admission.Ordered(g) && Admission.CollisionFree(Arrivals(events) + {g})
    ensures Trace(g, rules, batchSize, events, cs, xs, fs)
    ensures forall i :: 0 <= i < |cs| ==> ExactAt(g, rules, OutputsOf(Arrivals(events) + {g}), cs[i], xs[i], fs[i])
    ensures if Reached(g, rules, cs[|cs| - 1]) then |cs| == |events| + 1 else
            1 < |cs| && events[|cs| - 2].Arrive? && Spoils(g, rules, cs[|cs| - 2], events[|cs| - 2].block, cs[|cs| - 1])
  {
    hide StoreOk, Tree, IndexOk, OutputsOf, GenesisOk, InitColumns, Reached, Traced, Spoils, Admission.CollisionFree,
         Admission.Ordered;
    ghost var all := Arrivals(events) + {g};
    ghost var u := OutputsOf(all);
    var service := new ChainService(g, rules);
    var indexer := new IndexerStore(batchSize);
    FirstBlock(g);
    IsReached(g, rules, service.store);
    ReachedFacts(g, rules, service.store);
    NothingIndexed(g, u, service.store.blocks);
    cs, xs, fs := [service.store], [indexer.db], [LocksOf(indexer)];
    for k := 0 to |events|
      invariant service.Valid() && service.genesis == g && service.rules == rules && indexer.batchSize == batchSize
      invariant Reached(g, rules, service.store) && Tree(g, service.store.blocks) && service.store.blocks.Values <= all
      invariant indexer.Sound(g, u, service.store.blocks)
      invariant |cs| == |xs| == |fs| == k + 1
      invariant cs[k] == service.store && xs[k] == indexer.db && fs[k] == LocksOf(indexer)
      invariant Trace(g, rules, batchSize, events, cs, xs, fs)
      invariant forall i :: 0 <= i < |cs| ==> ExactAt(g, rules, u, cs[i], xs[i], fs[i])
    {
      hide Trace;
      var spoilt := Happen(service, indexer, u, all, events[k]);
      TraceMore(g, rules, batchSize, events, cs, xs, fs, service.store, indexer.db, LocksOf(indexer));
      cs, xs, fs := cs + [service.store], xs + [indexer.db], fs + [LocksOf(indexer)];
      if spoilt { return; }
      IsExactAt(g, rules, u, service.store, indexer.db, LocksOf(indexer));
    }
  }

  lemma {:induction false} NothingIndexed(g: Block, u: Outputs, blocks: map<Hash, Block>)
    requires Tree(g, blocks)
    ensures IndexOk(g, u, blocks, NO_ROWS, {}, {})
  {
  }

  // ---------------------------------------------------------------- what the rows say about the chain

  ghost predicate CreatedAt(p: seq<Block>, lock: Hash, op: OutPoint, n: nat) {
    n < |p| && exists i :: 0 <= i < |p[n].txs| && p[n].txs[i].hash == op.txHash && op.index < |p[n].txs[i].outputs| &&
                           p[n].txs[i].outputs[op.index].lock == lock
  }

  /** At or above height n, some transaction of the chain, genesis included, has the out point among its inputs. */
  ghost predicate SpentFrom(p: seq<Block>, op: OutPoint, n: nat) {
    exists m, i :: n <= m < |p| && 0 <= i < |p[m].txs| && SpendsOp(p[m].txs[i], SpendCount(p[m].txs[i]), op)
  }

  lemma {:induction false} TxInScan(p: seq<Block>, n: nat, i: nat)
    requires ScanOk(p) && n < |p| && i < |p[n].txs|
    ensures var s, b := Scan(p[..n]), p[n];
            && TxFits(BookTxs(s, b, i), b.txs[i]) && Extends(s, BookTxs(s, b, i))
            && Extends(BookTx(BookTxs(s, b, i), b.number, b.txs[i]), Scan(p))
  {
    hide TxFits, BookTx, Extends;
    ScanStep(p, n);
    var s, b := Scan(p[..n]), p[n];
    TxsExtend(s, b, i + 1, |b.txs|);
    TxsExtend(s, b, 0, i);
    ScanPrefix(p, n + 1);
    ExtendsBoth(BookTxs(s, b, i + 1), BookBlock(s, b), Scan(p));
  }

  lemma {:induction false} ExtendsBoth(r: Book, s: Book, t: Book)
    requires Extends(r, s) && Extends(s, t)
    ensures Extends(r, t)
  {
  }

  lemma {:induction false} CreatedInScan(p: seq<Block>, n: nat, i: nat, j: nat)
    requires ScanOk(p) && n < |p| && i < |p[n].txs| && j < |p[n].txs[i].outputs|
    ensures var op := OutPoint(p[n].txs[i].hash, j);
            op in Scan(p).created && Scan(p).created[op] == CellOf(p[n].number, p[n].txs[i], j)
  {
    TxInScan(p, n, i);
    var t, tx := BookTxs(Scan(p[..n]), p[n], i), p[n].txs[i];
    hide Scan, ScanOk, BookTxs;
    InputsCreateNothing(t, p[n].number, tx, SpendCount(tx));
    BookOutputsAre(BookInputs(t, p[n].number, tx, SpendCount(tx)), p[n].number, tx, |tx.outputs|);
    assert OutPoint(tx.hash, j) in BookTx(t, p[n].number, tx).created;
  }

  /** An input at or above the height of the cell's creation meets the cell in the book. */
  lemma {:induction false} CreatedBefore(p: seq<Block>, op: OutPoint, m: nat, i: nat)
    requires ScanOk(p) && MainChain.Numbered(p) && op in Scan(p).created && Scan(p).created[op].number <= m < |p|
    requires i < |p[m].txs| && SpendsOp(p[m].txs[i], SpendCount(p[m].txs[i]), op)
    ensures op in BookTxs(Scan(p[..m]), p[m], i).created
  {
    hide Scan, ScanOk, TxFits, BookTxs, Admission.Ordered, InputsFit, TxsFit, SpendsOp, BookTx;
    var n, j := ScanCreate(p, op);
    assert p[n].number == n && OutPoint(op.txHash, op.index) == op;
    TxInScan(p, m, i);
    if n < m {
      ScanPrefix(p, m);
      assert p[..m][n] == p[n];
      CreatedInScan(p[..m], n, j, op.index);
    } else {
      CreatedHere(p, m, j, op.index, i);
    }
  }

  lemma {:induction false} CreatedHere(p: seq<Block>, m: nat, j: nat, k: nat, i: nat)
    requires ScanOk(p) && m < |p| && j < |p[m].txs| && k < |p[m].txs[j].outputs| && i < |p[m].txs|
    requires SpendsOp(p[m].txs[i], SpendCount(p[m].txs[i]), OutPoint(p[m].txs[j].hash, k))
    ensures OutPoint(p[m].txs[j].hash, k) in BookTxs(Scan(p[..m]), p[m], i).created
  {
    hide Scan, ScanOk, TxFits, BookTxs, Admission.Ordered, InputsFit, TxsFit;
    assert p[..m + 1][m] == p[m];
    ScanPrefix(p, m + 1);
    CreatedInScan(p[..m + 1], m, j, k);
    ScanStep(p, m);
    OrderedInputs(Scan(p[..m]), p[m], i);
  }

  lemma {:induction false} SpentInScan(p: seq<Block>, m: nat, i: nat, op: OutPoint)
    requires ScanOk(p) && MainChain.Numbered(p) && op in Scan(p).created && Scan(p).created[op].number <= m < |p|
    requires i < |p[m].txs| && SpendsOp(p[m].txs[i], SpendCount(p[m].txs[i]), op)
    ensures op in Scan(p).spent
  {
    CreatedBefore(p, op, m, i);
    TxInScan(p, m, i);
    var t, tx := BookTxs(Scan(p[..m]), p[m], i), p[m].txs[i];
    hide Scan, ScanOk, BookTxs;
    BookInputsAre(t, p[m].number, tx, SpendCount(tx));
    OutputsSpendNothing(BookInputs(t, p[m].number, tx, SpendCount(tx)), p[m].number, tx, |tx.outputs|);
    assert op in BookTx(t, p[m].number, tx).spent;
  }

  lemma {:induction false} InputPoint(s: Book, n: nat, tx: Tx, k: nat, op: OutPoint) returns (i: nat)
    requires k <= |tx.inputs| && op in BookInputs(s, n, tx, k).spent && op !in s.spent
    ensures i < k && tx.inputs[i].previous == op && BookInputs(s, n, tx, k).spent[op] == Point(n, tx.hash, i)
  {
    if op in BookInputs(s, n, tx, k - 1).spent {
      i := InputPoint(s, n, tx, k - 1, op);
    } else {
      i := k - 1;
    }
  }

  lemma {:induction false} TxsPoint(s: Book, b: Block, k: nat, op: OutPoint) returns (i: nat, j: nat)
    requires k <= |b.txs| && op in BookTxs(s, b, k).spent && op !in s.spent
    ensures i < k && j < SpendCount(b.txs[i]) && b.txs[i].inputs[j].previous == op
    ensures BookTxs(s, b, k).spent[op] == Point(b.number, b.txs[i].hash, j)
  {
    var t, tx := BookTxs(s, b, k - 1), b.txs[k - 1];
    BookInputsAre(t, b.number, tx, SpendCount(tx));
    OutputsSpendNothing(BookInputs(t, b.number, tx, SpendCount(tx)), b.number, tx, |tx.outputs|);
    if op in t.spent {
      i, j := TxsPoint(s, b, k - 1, op);
    } else {
      i := k - 1;
      j := InputPoint(t, b.number, tx, SpendCount(tx), op);
    }
  }

  lemma {:induction false} SamePrefix(p: seq<Block>, m: nat)
    requires m + 1 < |p|
    ensures p[..|p| - 1][m] == p[m] && p[..|p| - 1][..m + 1] == p[..m + 1]
  {
  }

  lemma {:induction false} ScanSpent(p: seq<Block>, op: OutPoint) returns (m: nat, i: nat)
    requires op in Scan(p).spent && ScanOk(p)
    ensures m < |p| && i < |p[m].txs| && SpendsOp(p[m].txs[i], SpendCount(p[m].txs[i]), op)
    ensures op in Scan(p[..m + 1]).created
  {
    var q, b := p[..|p| - 1], p[|p| - 1];
    if op in Scan(q).spent {
      m, i := ScanSpent(q, op);
      SamePrefix(p, m);
    } else {
      ScanPrefix(p, |p|);
      m := |p| - 1;
      var j: nat;
      i, j := TxsPoint(Scan(q), b, |b.txs|, op);
      assert p[..m + 1] == p;
    }
  }

  /** The spend that the scan records is not below the creation of the cell. */
  lemma {:induction false} SpentAbove(p: seq<Block>, op: OutPoint, n: nat)
    requires ScanOk(p) && MainChain.Numbered(p) && op in Scan(p).spent && op in Scan(p).created
    requires Scan(p).created[op].number == n
    ensures SpentFrom(p, op, n)
  {
    hide Scan, ScanOk;
    var m, i := ScanSpent(p, op);
    ScanPrefix(p, m + 1);
    var n', j := ScanCreate(p[..m + 1], op);
    assert p[..m + 1][n'] == p[n'] && p[n'].number == n';
  }

  /**
    After a sync run a live-cell row means: created on the main chain with this lock at this
    height, and not an input there or above.
   */
  lemma {:induction false} LiveRowsMean(x: Index, lock: Hash, p: seq<Block>, op: OutPoint, n: nat)
    requires ScanOk(p) && MainChain.Numbered(p) && Matches(x, lock, Scan(p), {})
    ensures Key(lock, n, op) in x.live <==> CreatedAt(p, lock, op, n) && !SpentFrom(p, op, n)
  {
    hide ScanOk, Scan;
    if Key(lock, n, op) in x.live {
      assert Owns(Scan(p), Key(lock, n, op));
      assert RowsOf(x, Scan(p), {}, op);
      var n', i := ScanCreate(p, op);
      if SpentFrom(p, op, n) {
        var m, j :| n <= m < |p| && 0 <= j < |p[m].txs| && SpendsOp(p[m].txs[j], SpendCount(p[m].txs[j]), op);
        SpentInScan(p, m, j, op);
      }
    }
    if CreatedAt(p, lock, op, n) && !SpentFrom(p, op, n) {
      var i :| 0 <= i < |p[n].txs| && p[n].txs[i].hash == op.txHash && op.index < |p[n].txs[i].outputs| &&
               p[n].txs[i].outputs[op.index].lock == lock;
      CreatedInScan(p, n, i, op.index);
      assert OutPoint(op.txHash, op.index) == op;
      assert RowsOf(x, Scan(p), {}, op);
      if op in Scan(p).spent { SpentAbove(p, op, n); }
    }
  }

  // ---------------------------------------------------------------- what the rows hold

  lemma {:induction false} TxsKeepSpent(s: Book, b: Block, k: nat, op: OutPoint)
    requires k <= |b.txs| && op in s.spent
    ensures op in BookTxs(s, b, k).spent && BookTxs(s, b, k).spent[op] == s.spent[op]
  {
    if k > 0 {
      TxsKeepSpent(s, b, k - 1, op);
      var t, tx := BookTxs(s, b, k - 1), b.txs[k - 1];
      BookInputsAre(t, b.number, tx, SpendCount(tx));
      OutputsSpendNothing(BookInputs(t, b.number, tx, SpendCount(tx)), b.number, tx, |tx.outputs|);
    }
  }

  /** The recorded spend names a block, a transaction and an input that has the out point. */
  lemma {:induction false} ScanPoint(p: seq<Block>, op: OutPoint) returns (m: nat, i: nat, j: nat)
    requires op in Scan(p).spent
    ensures IsSpend(p, op, m, i, j) && Scan(p).spent[op] == Point(p[m].number, p[m].txs[i].hash, j)
  {
    var q, b := p[..|p| - 1], p[|p| - 1];
    if op in Scan(q).spent {
      m, i, j := ScanPoint(q, op);
      TxsKeepSpent(Scan(q), b, |b.txs|, op);
    } else {
      m := |p| - 1;
      i, j := TxsPoint(Scan(q), b, |b.txs|, op);
    }
  }

  /** Input j of transaction i of block m, not a cellbase, names the out point. */
  predicate IsSpend(p: seq<Block>, op: OutPoint, m: nat, i: nat, j: nat) {
    && m < |p| && i < |p[m].txs| && !IsCellbase(p[m].txs[i])
    && j < |p[m].txs[i].inputs| && p[m].txs[i].inputs[j].previous == op
  }

  /**
    The rows of output j of transaction i of block n: the live row holds the output itself; the
    transaction row is empty while the output is live, and then names the input that spent it.
   */
  ghost predicate RowsHold(x: Index, lock: Hash, p: seq<Block>, n: nat, i: nat, j: nat)
    requires n < |p| && i < |p[n].txs| && j < |p[n].txs[i].outputs|
  {
    var tx, key := p[n].txs[i], Key(lock, n, OutPoint(p[n].txs[i].hash, j));
    && (key in x.live ==>
          x.live[key] == LiveCell(CellOutput(tx.outputs[j].capacity, lock), tx.outputs[j].dataLen, IsCellbase(tx)))
    && key in x.txs && (key in x.live <==> x.txs[key].None?)
    && (x.txs[key].Some? ==>
          exists m: nat, k: nat, l: nat ::
            IsSpend(p, key.op, m, k, l) && x.txs[key].value == Point(m, p[m].txs[k].hash, l))
  }

  lemma {:induction false} RowsAreRight(x: Index, lock: Hash, p: seq<Block>, n: nat, i: nat, j: nat)
    requires ScanOk(p) && MainChain.Numbered(p) && Matches(x, lock, Scan(p), {}) && n < |p| && i < |p[n].txs|
    requires j < |p[n].txs[i].outputs| && p[n].txs[i].outputs[j].lock == lock
    ensures RowsHold(x, lock, p, n, i, j)
  {
    hide ScanOk, Scan;
    CreatedInScan(p, n, i, j);
    var op := OutPoint(p[n].txs[i].hash, j);
    assert RowsOf(x, Scan(p), {}, op);
    assert KeyOf(Scan(p), op) == Key(lock, n, op);
    if op in Scan(p).spent {
      var m, k, l := ScanPoint(p, op);
      assert p[m].number == m;
      assert IsSpend(p, op, m, k, l);
    }
  }

  /** The outputs of the chain with this lock that no input names there or above, with their capacities, by position. */
  ghost function LiveOutputs(p: seq<Block>, lock: Hash): map<(nat, nat, nat), nat> {
    map t | t in Positions(p) && p[t.0].txs[t.1].outputs[t.2].lock == lock &&
            !SpentFrom(p, OutPoint(p[t.0].txs[t.1].hash, t.2), t.0) :: p[t.0].txs[t.1].outputs[t.2].capacity
  }

  ghost function Positions(p: seq<Block>): set<(nat, nat, nat)> {
    set n: nat, i: nat, j: nat | n < |p| && i < |p[n].txs| && j < |p[n].txs[i].outputs| :: (n, i, j)
  }

  lemma {:induction false} OnePosition(p: seq<Block>, n: nat, i: nat, i': nat, j: nat)
    requires ScanOk(p) && n < |p| && i < i' < |p[n].txs| && j < |p[n].txs[i].outputs|
    ensures p[n].txs[i].hash != p[n].txs[i'].hash
  {
    TxInScan(p, n, i);
    TxInScan(p, n, i');
    ScanStep(p, n);
    var s, b := Scan(p[..n]), p[n];
    TxsExtend(s, b, i', |b.txs|);
    TxsExtend(s, b, i + 1, i');
    var t, tx := BookTxs(s, b, i), b.txs[i];
    hide Scan, ScanOk, BookTxs;
    InputsCreateNothing(t, b.number, tx, SpendCount(tx));
    BookOutputsAre(BookInputs(t, b.number, tx, SpendCount(tx)), b.number, tx, |tx.outputs|);
    assert BookTxs(s, b, i + 1) == BookTx(t, b.number, tx) by { NextTx(s, b, i); }
    assert OutPoint(tx.hash, j) in BookTxs(s, b, i + 1).created;
  }

  lemma {:induction false} NextTx(s: Book, b: Block, i: nat)
    requires i < |b.txs|
    ensures BookTxs(s, b, i + 1) == BookTx(BookTxs(s, b, i), b.number, b.txs[i])
  {
  }

  function RowAt(p: seq<Block>, lock: Hash, t: (nat, nat, nat)): Key
    requires t.0 < |p| && t.1 < |p[t.0].txs|
  {
    Key(lock, t.0, OutPoint(p[t.0].txs[t.1].hash, t.2))
  }

  lemma {:induction false} RowOfOutput(x: Index, lock: Hash, p: seq<Block>, t: (nat, nat, nat))
    requires ScanOk(p) && MainChain.Numbered(p) && Matches(x, lock, Scan(p), {}) && t in LiveOutputs(p, lock)
    ensures t in Positions(p) && RowAt(p, lock, t) in LockRows(x, lock)
    ensures LockRows(x, lock)[RowAt(p, lock, t)] == LiveOutputs(p, lock)[t]
  {
    hide ScanOk, Scan, Matches, SpentFrom;
    var op := OutPoint(p[t.0].txs[t.1].hash, t.2);
    assert CreatedAt(p, lock, op, t.0);
    LiveRowsMean(x, lock, p, op, t.0);
    RowsAreRight(x, lock, p, t.0, t.1, t.2);
  }

  lemma {:induction false} OutputOfRow(x: Index, lock: Hash, p: seq<Block>, key: Key) returns (t: (nat, nat, nat))
    requires ScanOk(p) && MainChain.Numbered(p) && Matches(x, lock, Scan(p), {}) && key in LockRows(x, lock)
    ensures t in LiveOutputs(p, lock) && t in Positions(p) && RowAt(p, lock, t) == key
  {
    hide ScanOk, Scan, Matches, SpentFrom;
    LiveRowsMean(x, lock, p, key.op, key.number);
    var n, op := key.number, key.op;
    assert Key(lock, n, op) == key;
    var i :| 0 <= i < |p[n].txs| && p[n].txs[i].hash == op.txHash && op.index < |p[n].txs[i].outputs| &&
             p[n].txs[i].outputs[op.index].lock == lock;
    t := (n, i, op.index);
    assert OutPoint(p[n].txs[i].hash, op.index) == op;
  }

  /** The row of each of these outputs. */
  ghost function OutputRows(p: seq<Block>, lock: Hash): map<(nat, nat, nat), Key> {
    map t | t in LiveOutputs(p, lock) :: RowAt(p, lock, t)
  }

  lemma {:induction false} DistinctRows(p: seq<Block>, lock: Hash, t: (nat, nat, nat), t': (nat, nat, nat))
    requires ScanOk(p) && t in Positions(p) && t' in Positions(p) && RowAt(p, lock, t) == RowAt(p, lock, t')
    ensures t == t'
  {
    hide ScanOk;
    if t.1 < t'.1 {
      OnePosition(p, t.0, t.1, t'.1, t.2);
    } else if t'.1 < t.1 {
      OnePosition(p, t.0, t'.1, t.1, t.2);
    }
  }

  lemma {:induction false} OutputRowIs(p: seq<Block>, lock: Hash, t: (nat, nat, nat))
    ensures t in OutputRows(p, lock) <==> t in LiveOutputs(p, lock)
    ensures t in LiveOutputs(p, lock) ==> t in Positions(p) && OutputRows(p, lock)[t] == RowAt(p, lock, t)
  {
    hide SpentFrom;
  }

  lemma {:induction false} RowsPaired(x: Index, lock: Hash, p: seq<Block>)
    requires ScanOk(p) && MainChain.Numbered(p) && Matches(x, lock, Scan(p), {})
    ensures Paired(LiveOutputs(p, lock), LockRows(x, lock), OutputRows(p, lock))
  {
    hide LockRows, ScanOk, Scan, Matches, LiveOutputs, OutputRows, Positions, RowAt, MainChain.Numbered;
    var rows, cells, f := LockRows(x, lock), LiveOutputs(p, lock), OutputRows(p, lock);
    forall t ensures t in f <==> t in cells { OutputRowIs(p, lock, t); }
    forall t | t in f ensures f[t] in rows && rows[f[t]] == cells[t] {
      OutputRowIs(p, lock, t);
      RowOfOutput(x, lock, p, t);
    }
    forall t, t' | t in f && t' in f && f[t] == f[t'] ensures t == t' {
      OutputRowIs(p, lock, t);
      OutputRowIs(p, lock, t');
      DistinctRows(p, lock, t, t');
    }
    forall key | key in rows ensures exists t :: t in f && f[t] == key {
      var t := OutputOfRow(x, lock, p, key);
      OutputRowIs(p, lock, t);
      assert t in f && f[t] == key;
    }
  }

  /** With exact rows, the capacity of a lock is the sum over the outputs of the chain that it can still spend. */
  lemma {:induction false} CapacityIsUnspent(x: Index, lock: Hash, p: seq<Block>)
    requires ScanOk(p) && MainChain.Numbered(p) && Matches(x, lock, Scan(p), {})
    ensures Sum(LockRows(x, lock)) == Sum(LiveOutputs(p, lock)) && |LockRows(x, lock)| == |LiveOutputs(p, lock)|
  {
    hide Sum, LockRows, LiveOutputs, OutputRows, ScanOk, Scan, Matches, Paired;
    RowsPaired(x, lock, p);
    PairedSums(LiveOutputs(p, lock), LockRows(x, lock), OutputRows(p, lock));
  }

  /**
    After a sync run, for a followed lock: the rows are the cells of the main chain up to its
    state that are created with this lock and not spent, and the capacity is the sum over them.
   */
  lemma {:induction false} FollowedCells(g: Block, u: Outputs, c: Columns, x: Index, followed: set<Hash>, lock: Hash,
                                         op: OutPoint, n: nat)
    requires Tree(g, c.blocks) && c.tip in c.blocks && Snapshot(g, u, c) && UpToDate(g, c, x, followed)
    requires lock in followed
    ensures lock in x.states && x.states[lock].number < |MainPath(g, c)|
    ensures var p := MainPath(g, c)[..x.states[lock].number + 1];
            && (Key(lock, n, op) in x.live <==> CreatedAt(p, lock, op, n) && !SpentFrom(p, op, n))
            && Sum(LockRows(x, lock)) == Sum(LiveOutputs(p, lock)) && |LockRows(x, lock)| == |LiveOutputs(p, lock)|
  {
    hide Matches, MainChain.Agrees, CreatedAt, SpentFrom, LockRows, LiveOutputs, Path, Tree, Sum;
    var m := MainPath(g, c);
    ScanPrefix(m, x.states[lock].number + 1);
    PathShape(g, c.blocks, c.tip);
    LiveRowsMean(x, lock, m[..x.states[lock].number + 1], op, n);
    CapacityIsUnspent(x, lock, m[..x.states[lock].number + 1]);
  }

  /** And what the row of an output of the main chain holds. */
  lemma {:induction false} FollowedRows(g: Block, u: Outputs, c: Columns, x: Index, followed: set<Hash>, lock: Hash,
                                        n: nat, i: nat, j: nat)
    requires Tree(g, c.blocks) && c.tip in c.blocks && Snapshot(g, u, c) && UpToDate(g, c, x, followed)
    requires lock in followed && lock in x.states && n <= x.states[lock].number < |MainPath(g, c)|
    requires i < |MainPath(g, c)[n].txs| && j < |MainPath(g, c)[n].txs[i].outputs|
    requires MainPath(g, c)[n].txs[i].outputs[j].lock == lock
    ensures RowsHold(x, lock, MainPath(g, c)[..x.states[lock].number + 1], n, i, j)
  {
    hide Matches, MainChain.Agrees, RowsHold, Path, Tree, Scan;
    var p := MainPath(g, c);
    ScanPrefix(p, x.states[lock].number + 1);
    PathShape(g, c.blocks, c.tip);
    RowsAreRight(x, lock, p[..x.states[lock].number + 1], n, i, j);
  }

  // ---------------------------------------------------------------- which locks stay followed

  /** Locks that have been inserted and not removed since. */
  function InsertedLocks(events: seq<Event>): set<Hash> {
    if events == [] then {} else
    var before := InsertedLocks(events[..|events| - 1]);
    match events[|events| - 1]
    case Insert(lock, _) => before + {lock}
    case Remove(lock) => before - {lock}
    case _ => before
  }

  /** Locks inserted from block 0 while not indexed, and neither inserted again nor removed since. */
  function FollowedSince(events: seq<Event>): set<Hash> {
    if events == [] then {} else
    var before := FollowedSince(events[..|events| - 1]);
    match events[|events| - 1]
    case Insert(lock, from) =>
      if lock !in InsertedLocks(events[..|events| - 1]) && from == Some(0) then before + {lock} else before - {lock}
    case Remove(lock) => before - {lock}
    case _ => before
  }

  /** No arriving block spends a cell of this lock that genesis spent. */
  ghost predicate NoneRespends(g: Block, events: seq<Event>, lock: Hash) {
    forall b :: b in Arrivals(events) ==> !Respends(Scan([g]), b, lock)
  }

  lemma {:induction false} NotLost(g: Block, rules: Rules, c: Columns, batchSize: nat, events: seq<Event>,
                                   states: map<Hash, IndexState>, strays: set<Hash>, lock: Hash)
    requires Reached(g, rules, c) && c.blocks.Values <= Arrivals(events) + {g} && NoneRespends(g, events, lock)
    requires lock !in strays
    ensures lock !in Lost(g, c, batchSize, states, strays)
  {
    hide StoreOk, Respends, Arrivals;
    if lock in states && states[lock].hash in c.blocks {
      var p, m := Path(g, c.blocks, states[lock].hash), MainPath(g, c);
      MeetBelow(g, c.blocks, states[lock].hash, c.tip, 0);
      forall j | Shared(p, m) <= j < |p| ensures !Respends(Scan([g]), p[j], lock) {
        PathAt(g, c.blocks, states[lock].hash, j);
        assert p[j] in c.blocks.Values && p[j] != g;
      }
    }
  }

  lemma {:induction false} StoredArrived(g: Block, rules: Rules, batchSize: nat, events: seq<Event>, cs: seq<Columns>,
                                         xs: seq<Index>, fs: seq<Locks>, i: nat)
    requires Trace(g, rules, batchSize, events, cs, xs, fs) && i < |cs|
    ensures cs[i].blocks.Values <= Arrivals(events) + {g}
  {
    hide Traced, TracedAt, InitColumns, Arrivals;
    if i == 0 {
      FirstBlock(g);
    } else {
      StoredArrived(g, rules, batchSize, events, cs, xs, fs, i - 1);
      TraceStep(g, rules, batchSize, events, cs, xs, fs, i - 1);
      InArrivals(events, i - 1);
      TracedBlocks(g, rules, batchSize, events[i - 1], cs[i - 1], xs[i - 1], fs[i - 1], cs[i], xs[i], fs[i]);
    }
  }

  lemma {:induction false} InArrivals(events: seq<Event>, i: nat)
    requires i < |events|
    ensures events[i].Arrive? ==> events[i].block in Arrivals(events)
  {
  }

  /** Only an arriving block is stored. */
  lemma {:induction false} TracedBlocks(g: Block, rules: Rules, batchSize: nat, e: Event, c: Columns, x: Index,
                                        f: Locks, d: Columns, y: Index, h: Locks)
    requires Traced(g, rules, batchSize, e, c, x, f, d, y, h)
    ensures d.blocks.Values <= c.blocks.Values + if e.Arrive? then {e.block} else {}
  {
    hide StoreOk, RefusedOn, Lost, UpToDate, OnMain, Removed, Replays, Synced, AllLive, LeftLive,
         Admission.NonContextualOk;
    if e.Arrive? && d != c {
      assert d.blocks == c.blocks[e.block.hash := e.block];
      assert c.blocks[e.block.hash := e.block].Values <= c.blocks.Values + {e.block};
    }
  }

  /** The recursions above, one event further. */
  lemma {:induction false} OneMore(events: seq<Event>, k: nat)
    requires k < |events|
    ensures InsertedLocks(events[..k + 1]) == NowInserted(InsertedLocks(events[..k]), events[k])
    ensures FollowedSince(events[..k + 1]) ==
            NowFollowed(FollowedSince(events[..k]), InsertedLocks(events[..k]), events[k])
  {
    assert events[..k + 1][..k] == events[..k];
  }

  function NowInserted(before: set<Hash>, e: Event): set<Hash> {
    if e.Insert? then before + {e.lock} else if e.Remove? then before - {e.lock} else before
  }

  function NowFollowed(before: set<Hash>, inserted: set<Hash>, e: Event): set<Hash> {
    if e.Insert? && e.lock !in inserted && e.from == Some(0) then before + {e.lock}
    else if e.Insert? || e.Remove? then before - {e.lock} else before
  }

  lemma {:induction false} TracedLocks(g: Block, rules: Rules, batchSize: nat, e: Event, c: Columns, x: Index,
                                       f: Locks,
                                       d: Columns, y: Index, h: Locks, lock: Hash, was: set<Hash>)
    requires Reached(g, rules, c) && Traced(g, rules, batchSize, e, c, x, f, d, y, h)
    requires lock in was ==> lock in f.followed + f.strays
    ensures y.states.Keys == NowInserted(x.states.Keys, e)
    ensures lock in NowFollowed(was, x.states.Keys, e) ==> lock in h.followed + h.strays
    ensures lock !in f.strays && lock !in Lost(g, c, batchSize, x.states, f.strays) ==> lock !in h.strays
  {
    hide Stepped, StoreOk, Lost, UpToDate, OnMain, Synced, AllLive, LeftLive;
  }

  /**
    Over a whole run: a lock that was inserted from block 0, and neither inserted again nor
    removed since, is followed or a stray; it is followed if no arriving block spends a cell of
    that lock again which genesis spent.
   */
  lemma {:induction false} StaysFollowed(g: Block, rules: Rules, batchSize: nat, events: seq<Event>, cs: seq<Columns>,
                                         xs: seq<Index>, fs: seq<Locks>, i: nat, lock: Hash)
    requires Trace(g, rules, batchSize, events, cs, xs, fs) && i < |cs|
    ensures xs[i].states.Keys == InsertedLocks(events[..i])
    ensures lock in FollowedSince(events[..i]) ==> lock in fs[i].followed + fs[i].strays
    ensures NoneRespends(g, events, lock) ==> lock !in fs[i].strays
  {
    hide InitColumns, NoneRespends, NowFollowed, NowInserted, Lost, Traced, TracedAt, Reached;
    if i > 0 {
      hide FollowedSince, InsertedLocks;
      StaysFollowed(g, rules, batchSize, events, cs, xs, fs, i - 1, lock);
      TraceStep(g, rules, batchSize, events, cs, xs, fs, i - 1);
      TracedReached(g, rules, batchSize, events[i - 1], cs[i - 1], xs[i - 1], fs[i - 1], cs[i], xs[i], fs[i]);
      StoredArrived(g, rules, batchSize, events, cs, xs, fs, i - 1);
      if NoneRespends(g, events, lock) {
        NotLost(g, rules, cs[i - 1], batchSize, events, xs[i - 1].states, fs[i - 1].strays, lock);
      }
      OneMore(events, i - 1);
      TracedLocks(g, rules, batchSize, events[i - 1], cs[i - 1], xs[i - 1], fs[i - 1], cs[i], xs[i], fs[i], lock,
                  FollowedSince(events[..i - 1]));
    }
  }

  lemma {:induction false} TraceStep(g: Block, rules: Rules, batchSize: nat, events: seq<Event>, cs: seq<Columns>,
                                     xs: seq<Index>, fs: seq<Locks>, i: nat)
    requires Trace(g, rules, batchSize, events, cs, xs, fs) && i + 1 < |cs|
    ensures Traced(g, rules, batchSize, events[i], cs[i], xs[i], fs[i], cs[i + 1], xs[i + 1], fs[i + 1])
  {
    hide Traced, InitColumns;
    assert TracedAt(g, rules, batchSize, events, cs, xs, fs, i);
  }

  lemma {:induction false} TracedReached(g: Block, rules: Rules, batchSize: nat, e: Event, c: Columns, x: Index,
                                         f: Locks,
                                         d: Columns, y: Index, h: Locks)
    requires Traced(g, rules, batchSize, e, c, x, f, d, y, h)
    ensures Reached(g, rules, c)
  {
  }

  // ---------------------------------------------------------------- a block there and back

  /**
    Attaching a block to the rows of the chain below it and detaching it again gives the rows
    back if and only if the block spends no cell of the lock which genesis spent.
   */
  lemma {:induction false} BlockRoundTrip(u: Outputs, gb: Book, x: Index, lock: Hash, s: Book, c: Columns, b: Block)
    requires TxsFit(s, b, |b.txs|) && BookOk(s) && BookOk(gb) && Extends(gb, s) && InputsFit(s, gb.spent.Keys, b)
    requires Matches(x, lock, s, {}) && OpsKnown(u, x) && BookKnown(u, s) && Says(u, b) && AllBacked(c, s, {})
    ensures var y := AttachTxs(x, {lock}, b, |b.txs|);
            Matches(DetachTxs(y, {lock}, c, b, 0), lock, s, {}) <==> !Respends(gb, b, lock)
  {
    var t, y := BookBlock(s, b), AttachTxs(x, {lock}, b, |b.txs|);
    var own := t.created.Keys - s.created.Keys;
    var z := DetachTxs(y, {lock}, c, b, 0);
    TxsExtend(s, b, 0, |b.txs|);
    hide Matches, OpsKnown, BookKnown, TxsFit, BookOk, InputsFit, Says, Respends, AttachTxs, DetachTxs, BookTxs, Backed;
    AttachFirst(u, x, lock, s, {}, {lock}, b);
    assert {} - BlockOuts(b, |b.txs|) == {};
    AttachKnown(u, {lock}, x, b);
    LessSure(y, lock, t, {}, own);
    forall op | op in t.created && op !in own ensures Backed(c, t, op) { BackedFrame(c, s, t, op); }
    DetachExactly(u, gb, y, lock, s, own, {lock}, c, b);
    if Matches(z, lock, s, own) { LessSure(z, lock, s, own, {}); }
    if Matches(z, lock, s, {}) { LessSure(z, lock, s, {}, own); }
  }
}
