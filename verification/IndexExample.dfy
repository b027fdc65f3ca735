/**
  A run in which the indexer loses a lock: the chain of the example spends an output again that
  a genesis transaction spent, the index follows, and the chain is reorganised.
 */
module IndexExample {
  import opened Types
  import opened Ledger
  import opened Store
  import opened BlockTree
  import opened IndexBook
  import opened IndexColumns
  import opened IndexSync
  import opened IndexTheorems
  import opened Chain
  import opened ChainTheorems
  import opened ExampleChain
  import Admission

  /** A new transaction that spends the output of the first genesis transaction again. */
  const AGAIN: Tx := Tx(8, [Input(SPENT, 0)], [OUTPUT], 0)

  const LOCK: Hash := OUTPUT.lock

  /** Three blocks arrive, the lock is indexed from block 0; sync runs before and after a heavier fork arrives. */
  const EVENTS: seq<Event> :=
    [Arrive(At(AGAIN, 1)), Arrive(At(AGAIN, 2)), Arrive(At(AGAIN, 3)), Insert(LOCK, Some(0)), Sync, Arrive(FORK),
     Sync]

  lemma {:induction false} Arrived()
    ensures Arrivals(EVENTS) + {GENESIS} == AllBlocks(AGAIN) && SpendsAgain(AGAIN)
  {
    var p := Blocks(AGAIN);
    assert EVENTS[0].block == p[1] && EVENTS[1].block == p[2] && EVENTS[2].block == p[3] && EVENTS[5].block == FORK;
    assert p[0] == GENESIS;
  }

  lemma {:induction false} GenesisOrdered()
    ensures Admission.Ordered(GENESIS)
  {
    assert InputPts(GENESIS.txs[0]) == [NULL_OUT_POINT] && InputPts(GENESIS.txs[1]) == [SPENT];
    assert Admission.OrderedAt(GENESIS, 0) && Admission.OrderedAt(GENESIS, 1);
  }

  /** In the book of the genesis block the output is created and spent. */
  lemma {:induction false} SpentInGenesis()
    ensures ScanOk([GENESIS]) && SpentCell(Scan([GENESIS]), LOCK, SPENT)
    ensures KeyOf(Scan([GENESIS]), SPENT) == Key(LOCK, 0, SPENT)
  {
    var p := [GENESIS];
    assert p[0] == GENESIS && p[..0] == [];
    GenesisFits();
    GenesisLedger(GENESIS, |GENESIS.txs|);
    GenesisOrdered();
    assert LedgerOk(p);
    hide Scan, ScanOk, LedgerOk, Admission.Ordered;
    LedgerScans(p);
    CreatedInScan(p, 0, 0, 0);
    assert p[0].txs[1].inputs[0].previous == SPENT;
    SpentInScan(p, 0, 1, SPENT);
  }

  // ---------------------------------------------------------------- the chain of the run

  lemma {:induction false} ArriveStep(cs: seq<Columns>, xs: seq<Index>, fs: seq<Locks>, i: nat)
    requires Trace(GENESIS, RULES, 10, EVENTS, cs, xs, fs) && i < 7 && i + 1 < |cs| && EVENTS[i].Arrive?
    ensures Stepped(GENESIS, RULES, cs[i], EVENTS[i].block, cs[i + 1]) && xs[i + 1] == xs[i] && fs[i + 1] == fs[i]
  {
    hide Stepped, InitColumns, EVENTS;
    assert TracedAt(GENESIS, RULES, 10, EVENTS, cs, xs, fs, i);
  }

  lemma {:induction false} FreeAll(i: nat)
    requires i <= 4
    ensures Admission.ReplayFree(Blocks(AGAIN)[..i])
  {
    Arrived();
    if i < 4 {
      FreeBelow(AGAIN, i);
    } else {
      assert Blocks(AGAIN)[..4] == Blocks(AGAIN);
      WhenFree(AGAIN);
    }
  }

  lemma {:induction false} GrowStep(cs: seq<Columns>, xs: seq<Index>, fs: seq<Locks>, i: nat)
    requires Trace(GENESIS, RULES, 10, EVENTS, cs, xs, fs) && 0 < i < 4 && i < |cs| && Holds(AGAIN, cs[i - 1], i)
    ensures Holds(AGAIN, cs[i], i + 1) && Reached(GENESIS, RULES, cs[i]) && xs[i] == xs[i - 1] && fs[i] == fs[i - 1]
  {
    hide Trace, Stepped, Holds, Reached, Admission.ReplayFree, At;
    Arrived();
    assert EVENTS[i - 1] == Arrive(At(AGAIN, i));
    hide EVENTS;
    ArriveStep(cs, xs, fs, i - 1);
    NextAccepted(AGAIN, cs[i - 1], i, cs[i]);
    FreeAll(i + 1);
  }

  lemma {:induction false} Grown(cs: seq<Columns>, xs: seq<Index>, fs: seq<Locks>, i: nat)
    requires Trace(GENESIS, RULES, 10, EVENTS, cs, xs, fs) && i < 4 && i < |cs|
    ensures Holds(AGAIN, cs[i], i + 1) && (i > 0 ==> Reached(GENESIS, RULES, cs[i]))
    ensures xs[i] == NO_ROWS && fs[i] == NO_LOCKS
  {
    if i == 0 {
      HoldsGenesis(AGAIN, cs[0]);
    } else {
      Grown(cs, xs, fs, i - 1);
      hide Holds, Reached, EVENTS, Traced;
      GrowStep(cs, xs, fs, i);
    }
  }

  lemma {:induction false} ArrivesAt(i: nat)
    requires i < 7
    ensures EVENTS[i].Arrive? <==> i != 3 && i != 4 && i != 6
  {
    assert EVENTS[3].Insert? && EVENTS[4].Sync? && EVENTS[6].Sync?;
  }

  // ---------------------------------------------------------------- the index of the run

  lemma {:induction false} InsertStep(cs: seq<Columns>, xs: seq<Index>, fs: seq<Locks>)
    requires Trace(GENESIS, RULES, 10, EVENTS, cs, xs, fs) && |cs| >= 7 && xs[3] == NO_ROWS && fs[3] == NO_LOCKS
    ensures cs[4] == cs[3] && xs[4].states == map[LOCK := IndexState(0, GENESIS.hash)] && fs[4] == Locks({LOCK}, {})
  {
    hide Stepped, StoreOk, InitColumns, Synced, UpToDate, Lost, AllLive, LeftLive;
    assert TracedAt(GENESIS, RULES, 10, EVENTS, cs, xs, fs, 3);
    assert EVENTS[3] == Insert(LOCK, Some(0));
    assert MainPath(GENESIS, cs[3])[0] == GENESIS;
  }

  lemma {:induction false} SyncStep(cs: seq<Columns>, xs: seq<Index>, fs: seq<Locks>)
    requires Trace(GENESIS, RULES, 10, EVENTS, cs, xs, fs) && |cs| >= 7
    requires xs[4].states == map[LOCK := IndexState(0, GENESIS.hash)] && fs[4] == Locks({LOCK}, {})
    requires Holds(AGAIN, cs[4], 4) && Reached(GENESIS, RULES, cs[4])
    ensures cs[5] == cs[4] && fs[5] == Locks({LOCK}, {})
    ensures LOCK in xs[5].states && xs[5].states[LOCK] == IndexState(3, At(AGAIN, 3).hash)
    ensures Matches(xs[5], LOCK, Scan(Blocks(AGAIN)), {})
  {
    hide Traced, TracedAt, StoreOk, Holds, Lost, AllLive, LeftLive, Scan, Matches, EVENTS, Synced, Tree, Path,
         Blocks, At, OnMain;
    var c, states := cs[4], xs[4].states;
    SyncAt(cs, xs, fs, 4);
    TipPath(AGAIN, c);
    SyncTraced(c, xs[4], fs[4], cs[5], xs[5], fs[5]);
    SyncedStates(c, states, xs[5].states);
    NoneLostOnMain(GENESIS, c, LOCK, states[LOCK]);
    NotAmongLost(c, states, {});
    ThirdIsTip(c, xs[5].states[LOCK]);
  }

  lemma {:induction false} SyncAt(cs: seq<Columns>, xs: seq<Index>, fs: seq<Locks>, i: nat)
    requires Trace(GENESIS, RULES, 10, EVENTS, cs, xs, fs) && i + 1 < |cs| && (i == 4 || i == 6)
    ensures Traced(GENESIS, RULES, 10, Sync, cs[i], xs[i], fs[i], cs[i + 1], xs[i + 1], fs[i + 1])
  {
    hide Traced, InitColumns;
    assert TracedAt(GENESIS, RULES, 10, EVENTS, cs, xs, fs, i);
    assert EVENTS[4] == EVENTS[6] == Sync;
  }

  lemma {:induction false} SyncTraced(c: Columns, x: Index, f: Locks, d: Columns, y: Index, h: Locks)
    requires Traced(GENESIS, RULES, 10, Sync, c, x, f, d, y, h)
    ensures Reached(GENESIS, RULES, c) && d == c && h == Divided(f, Lost(GENESIS, c, 10, x.states, f.strays))
    ensures Synced(GENESIS, c, 10, x.states, y.states) && UpToDate(GENESIS, c, y, h.followed)
    ensures AllLive(Scan([GENESIS]), y, f.followed * LeftLive(GENESIS, c, 10, x.states))
  {
    hide StoreOk, Synced, UpToDate, Lost, AllLive, LeftLive;
  }

  lemma {:induction false} ThirdIsTip(c: Columns, st: IndexState)
    requires Tree(GENESIS, c.blocks) && c.tip in c.blocks && Path(GENESIS, c.blocks, c.tip) == Blocks(AGAIN)
    requires st.number == 3
    ensures MainPath(GENESIS, c)[..st.number + 1] == Blocks(AGAIN)
    ensures OnMain(GENESIS, c, st) ==> st.hash == At(AGAIN, 3).hash
  {
  }

  lemma {:induction false} NotAmongLost(c: Columns, states: map<Hash, IndexState>, strays: set<Hash>)
    requires Tree(GENESIS, c.blocks) && c.tip in c.blocks && LOCK in states && states[LOCK].hash in c.blocks
    requires !Loses(GENESIS, c, LOCK, states[LOCK]) && LOCK !in strays
    ensures LOCK !in Lost(GENESIS, c, 10, states, strays)
  {
  }

  lemma {:induction false} SyncedStates(c: Columns, before: map<Hash, IndexState>, after: map<Hash, IndexState>)
    requires Tree(GENESIS, c.blocks) && c.tip in c.blocks && Path(GENESIS, c.blocks, c.tip) == Blocks(AGAIN)
    requires before == map[LOCK := IndexState(0, GENESIS.hash)] && Synced(GENESIS, c, 10, before, after)
    ensures OnMain(GENESIS, c, before[LOCK]) && GENESIS.hash in c.blocks && c.blocks[GENESIS.hash].number == 0
    ensures LOCK in after && after[LOCK].number == 3
  {
    assert MainPath(GENESIS, c)[0] == GENESIS;
    assert before != map[] by { assert LOCK in before; }
    var mid, lo :| SyncedVia(GENESIS, c, 10, before, mid, lo, after);
    assert mid[LOCK] == before[LOCK];
    assert lo == 0;
    assert Reach(lo, 10, 4) == 4;
  }

  lemma {:induction false} CountEvents()
    ensures |EVENTS| == 7
  {
  }

  /** The whole run up to the fork. */
  lemma {:induction false} Followed(cs: seq<Columns>, xs: seq<Index>, fs: seq<Locks>)
    requires Trace(GENESIS, RULES, 10, EVENTS, cs, xs, fs) && |cs| >= 7
    ensures Reached(GENESIS, RULES, cs[6]) && cs[6].tip in cs[6].blocks && MainPath(GENESIS, cs[6]) == ForkChain(AGAIN)
    ensures At(AGAIN, 3).hash in cs[6].blocks && Path(GENESIS, cs[6].blocks, At(AGAIN, 3).hash) == Blocks(AGAIN)
    ensures LOCK in xs[6].states && xs[6].states[LOCK] == IndexState(3, At(AGAIN, 3).hash)
    ensures Matches(xs[6], LOCK, Scan(Blocks(AGAIN)), {}) && fs[6] == Locks({LOCK}, {})
  {
    assert EVENTS[5] == Arrive(FORK);
    hide Trace, Holds, StoreOk, EVENTS, Matches, Stepped, At, Blocks, ForkChain, Scan, Tree, Path;
    Arrived();
    Grown(cs, xs, fs, 3);
    InsertStep(cs, xs, fs);
    SyncStep(cs, xs, fs);
    ArriveStep(cs, xs, fs, 5);
    ForkAccepted(AGAIN, cs[5], cs[6]);
  }

  /** No arrival spoils the store, so that the run takes in all events. */
  lemma {:induction false} AllHappen(cs: seq<Columns>, xs: seq<Index>, fs: seq<Locks>)
    requires Trace(GENESIS, RULES, 10, EVENTS, cs, xs, fs)
    requires if Reached(GENESIS, RULES, cs[|cs| - 1]) then |cs| == 8 else 1 < |cs| && EVENTS[|cs| - 2].Arrive?
    ensures |cs| == 8 && |xs| == 8 && |fs| == 8
  {
    hide Holds, Matches, Reached, EVENTS, TracedAt, InitColumns;
    CountEvents();
    if |cs| > 1 { ArrivesAt(|cs| - 2); }
    if |cs| <= 4 { Grown(cs, xs, fs, |cs| - 1); }
    if |cs| == 7 { Followed(cs, xs, fs); }
  }

  // ---------------------------------------------------------------- the fork

  /** The block that leaves the main chain spends the output again; those that the lock is taken over to do not. */
  lemma {:induction false} LockIsLost(c: Columns)
    requires Tree(GENESIS, c.blocks) && c.tip in c.blocks && MainPath(GENESIS, c) == ForkChain(AGAIN)
    requires At(AGAIN, 3).hash in c.blocks && Path(GENESIS, c.blocks, At(AGAIN, 3).hash) == Blocks(AGAIN)
    ensures var st := IndexState(3, At(AGAIN, 3).hash);
            Loses(GENESIS, c, LOCK, st) && Unhealed(GENESIS, c, LOCK, Back(GENESIS, c, st))
  {
    var p, m := Blocks(AGAIN), ForkChain(AGAIN);
    assert m[3] == FORK && p[3] == At(AGAIN, 3) && p[3] != m[3] && p[2] == m[2];
    var k := Shared(p, m);
    assert forall i :: 0 <= i < k ==> p[i] == p[..k][i] && m[i] == m[..k][i];
    SpentInGenesis();
    hide Scan, ScanOk, SpentCell, Tree, Path;
    assert p[3].txs[1].inputs[0].previous == SPENT && SpendCount(p[3].txs[1]) == 1;
    assert Respends(Scan([GENESIS]), p[3], LOCK);
    assert k == 3;
  }

  lemma {:induction false} AmongLost(c: Columns, states: map<Hash, IndexState>)
    requires Tree(GENESIS, c.blocks) && c.tip in c.blocks && LOCK in states && states[LOCK].hash in c.blocks
    requires Loses(GENESIS, c, LOCK, states[LOCK]) && Unhealed(GENESIS, c, LOCK, Back(GENESIS, c, states[LOCK]))
    ensures LOCK in Lost(GENESIS, c, 10, states, {}) && LOCK in LeftLive(GENESIS, c, 10, states)
  {
    hide Loses, Back;
  }

  /** The second sync run. */
  lemma {:induction false} LoseStep(cs: seq<Columns>, xs: seq<Index>, fs: seq<Locks>)
    requires Trace(GENESIS, RULES, 10, EVENTS, cs, xs, fs) && |cs| == 8
    ensures |xs| == |fs| == 8 && Reached(GENESIS, RULES, cs[7]) && cs[7] == cs[6] && fs[7] == Locks({}, {LOCK})
    ensures LiveAgain(Scan([GENESIS]), xs[7], LOCK)
  {
    hide Traced, TracedAt, InitColumns, StoreOk, EVENTS, Lost, LeftLive, Loses, Unhealed, Back, At, Blocks,
         ForkChain, Scan, Tree, Path, LiveAgain, Synced, UpToDate, Matches;
    Followed(cs, xs, fs);
    SyncAt(cs, xs, fs, 6);
    SyncTraced(cs[6], xs[6], fs[6], cs[7], xs[7], fs[7]);
    LockIsLost(cs[6]);
    AmongLost(cs[6], xs[6].states);
    assert LOCK in fs[6].followed * LeftLive(GENESIS, cs[6], 10, xs[6].states);
  }

  lemma {:induction false} ChainsScan(u: Outputs, c: Columns, x: Index, f: Locks)
    requires Tree(GENESIS, c.blocks) && c.tip in c.blocks && Snapshot(GENESIS, u, c)
    requires MainPath(GENESIS, c) == ForkChain(AGAIN)
    requires ExactAt(GENESIS, RULES, u, c, x, f) && Reached(GENESIS, RULES, c)
    requires LOCK in x.states && x.states[LOCK].hash in c.blocks
    requires Path(GENESIS, c.blocks, x.states[LOCK].hash) == Blocks(AGAIN)
    ensures ScanOk(ForkChain(AGAIN)) && ScanOk(Blocks(AGAIN))
  {
    hide StoreOk, IndexOk, Exact, ScanOk, Blocks, ForkChain, Tree, Path;
    IsPlaced(GENESIS, u, c.blocks, x, f.followed, f.strays, LOCK);
  }

  lemma {:induction false} NotOnFork(x: Index, y: Index)
    requires ScanOk(ForkChain(AGAIN)) && ScanOk(Blocks(AGAIN))
    requires Matches(x, LOCK, Scan(Blocks(AGAIN)), {}) && LiveAgain(Scan([GENESIS]), y, LOCK)
    ensures Key(LOCK, 0, SPENT) !in x.live && !Matches(y, LOCK, Scan(ForkChain(AGAIN)), {})
  {
    var p, m := Blocks(AGAIN), ForkChain(AGAIN);
    assert p[..1] == [GENESIS] && m[..1] == [GENESIS];
    SpentInGenesis();
    hide Scan, ScanOk;
    ScanPrefix(p, 1);
    ScanPrefix(m, 1);
    assert RowsOf(x, Scan(p), {}, SPENT);
    LiveIsWrong(Scan([GENESIS]), y, LOCK, Scan(m), {});
  }

  lemma {:induction false} ForkSpends()
    ensures SpentFrom(ForkChain(AGAIN), SPENT, 0)
  {
    var m := ForkChain(AGAIN);
    assert m[0] == GENESIS && SpendCount(m[0].txs[1]) == 1 && m[0].txs[1].inputs[0].previous == SPENT;
    assert SpendsOp(m[0].txs[1], 1, SPENT);
  }

  /** Only one cell of the lock is spent in genesis. */
  lemma {:induction false} OnlyOutput(x: Index)
    requires LiveAgain(Scan([GENESIS]), x, LOCK)
    ensures Key(LOCK, 0, SPENT) in x.live
  {
    SpentInGenesis();
    var op :| SpentCell(Scan([GENESIS]), LOCK, op) && KeyOf(Scan([GENESIS]), op) in x.live;
    hide Scan, ScanOk;
    assert op == SPENT by {
      var m, i := ScanSpent([GENESIS], op);
      assert [GENESIS][m].txs[i] == GENESIS.txs[i];
    }
  }

  lemma {:induction false} StrayNotExact(u: Outputs, c: Columns, x: Index, f: Locks)
    requires ExactAt(GENESIS, RULES, u, c, x, f) && Reached(GENESIS, RULES, c) && f == Locks({}, {LOCK})
    ensures Tree(GENESIS, c.blocks) && !Exact(GENESIS, c.blocks, x, LOCK)
  {
    hide StoreOk, IndexOk;
  }

  /**
    The run: before the last sync run the rows of the lock are exact on the chain of the three
    blocks, and the output is not live. The fork is accepted, and the sync run follows it. Then the
    lock is a stray: the output has a live row, though the main chain spends it in genesis.
   */
  method RespendRun() returns (c: Columns, x: Index, y: Index)
    ensures Reached(GENESIS, RULES, c) && MainPath(GENESIS, c) == ForkChain(AGAIN)
    ensures Matches(x, LOCK, Scan(Blocks(AGAIN)), {}) && Key(LOCK, 0, SPENT) !in x.live
    ensures Key(LOCK, 0, SPENT) in y.live && SpentFrom(ForkChain(AGAIN), SPENT, 0)
    ensures !Matches(y, LOCK, Scan(ForkChain(AGAIN)), {}) && !Exact(GENESIS, c.blocks, y, LOCK)
    ensures exists cs, xs, fs :: Trace(GENESIS, RULES, 10, EVENTS, cs, xs, fs) && |cs| == |EVENTS| + 1 &&
              c == cs[|EVENTS|] && x == xs[|EVENTS| - 1] && y == xs[|EVENTS|]
  {
    hide Reached, Matches, Trace, ExactAt, Holds, OutputsOf, Spoils, Scan, SpentFrom, Admission.Ordered,
         Admission.CollisionFree, Arrivals, GenesisOk, ScanOk, Snapshot, StoreOk, EVENTS, ForkChain, Blocks, At, Exact,
         LiveAgain;
    Arrived();
    GenesisFits();
    GenesisOrdered();
    NoCollisions(AGAIN);
    var cs, xs, fs := Follow(GENESIS, RULES, 10, EVENTS);
    ghost var u := OutputsOf(AllBlocks(AGAIN));
    assert |EVENTS| == 7 by { CountEvents(); }
    AllHappen(cs, xs, fs);
    c, x, y := cs[7], xs[6], xs[7];
    Followed(cs, xs, fs);
    LoseStep(cs, xs, fs);
    assert ExactAt(GENESIS, RULES, u, c, y, fs[7]);
    StrayNotExact(u, c, y, fs[7]);
    StoredArrived(GENESIS, RULES, 10, EVENTS, cs, xs, fs, 7);
    ReachedFacts(GENESIS, RULES, c);
    ServiceSnapshot(GENESIS, RULES, c, AllBlocks(AGAIN));
    OnlyOutput(y);
    ForkSpends();
    assert ExactAt(GENESIS, RULES, u, c, x, fs[6]);
    ChainsScan(u, c, x, fs[6]);
    NotOnFork(x, y);
  }
}
