/**
  Sync runs on a chain that does not change: how far they bring the states, and exactly when
  they bring all of them to the tip.
 */
module IndexProgress {
  import opened Types
  import opened Store
  import opened BlockTree
  import opened IndexColumns
  import opened IndexSync
  import opened Indexer

  /** The lowest state after a sync run, from the lowest one before, on a main chain of `len` blocks. */
  function NextLow(lo: nat, batch: nat, len: nat): nat {
    if lo + 1 >= Reach(lo, batch, len) then lo else Reach(lo, batch, len) - 1
  }

  function LowAfter(lo: nat, batch: nat, len: nat, n: nat): nat {
    if n == 0 then lo else NextLow(LowAfter(lo, batch, len, n - 1), batch, len)
  }

  /** Genesis is attached again as long as a lock is at block 0, so that a batch of one block makes no progress then. */
  predicate Moves(lo: nat, batch: nat) {
    batch > 1 || (batch == 1 && lo > 0)
  }

  lemma {:induction false} Climbs(lo: nat, batch: nat, len: nat, n: nat)
    requires lo < len && Moves(lo, batch)
    ensures LowAfter(lo, batch, len, n) < len && Moves(LowAfter(lo, batch, len, n), batch)
    ensures LowAfter(lo, batch, len, n) >= if lo + n < len then lo + n else len - 1
  {
    if n > 0 { Climbs(lo, batch, len, n - 1); }
  }

  lemma {:induction false} Stuck(lo: nat, batch: nat, len: nat, n: nat)
    requires lo < len && !Moves(lo, batch)
    ensures LowAfter(lo, batch, len, n) == lo
  {
    if n > 0 { Stuck(lo, batch, len, n - 1); }
  }

  lemma {:induction false} LowNext(before: map<Hash, IndexState>, after: map<Hash, IndexState>, lo: nat, batch: nat,
                                   len: nat)
    requires Lowest(before, lo) && Advanced(before, after, Reach(lo, batch, len))
    ensures Lowest(after, NextLow(lo, batch, len))
  {
    hide Reach;
    var lock :| lock in before && before[lock].number == lo;
    assert after[lock].number == NextLow(lo, batch, len);
  }

  lemma {:induction false} OneLowest(states: map<Hash, IndexState>, lo: nat, lo': nat)
    requires Lowest(states, lo) && Lowest(states, lo')
    ensures lo == lo'
  {
  }

  lemma {:induction false} StaysOnMain(g: Block, c: Columns, states: map<Hash, IndexState>, mid: map<Hash, IndexState>)
    requires Tree(g, c.blocks) && c.tip in c.blocks && TakenBack(g, c, states, mid)
    requires forall lock :: lock in states ==> OnMain(g, c, states[lock])
    ensures mid == states
  {
    hide OnMain;
  }

  lemma {:induction false} SyncedLow(g: Block, c: Columns, batch: nat, before: map<Hash, IndexState>,
                                     after: map<Hash, IndexState>, lo: nat)
    requires Tree(g, c.blocks) && c.tip in c.blocks && Synced(g, c, batch, before, after) && Lowest(before, lo)
    requires forall lock :: lock in before ==> OnMain(g, c, before[lock])
    ensures Lowest(after, NextLow(lo, batch, |MainPath(g, c)|))
  {
    hide OnMain, Advanced, Lowest, TakenBack, Reach, NextLow, Tree, Path;
    assert before != map[] by { NotEmpty(before, lo); }
    var mid, lo' :| SyncedVia(g, c, batch, before, mid, lo', after);
    StaysOnMain(g, c, before, mid);
    OneLowest(before, lo, lo');
    LowNext(before, after, lo, batch, |MainPath(g, c)|);
  }

  lemma {:induction false} NotEmpty(states: map<Hash, IndexState>, lo: nat)
    requires Lowest(states, lo)
    ensures states != map[]
  {
  }

  /** Every state is at the tip of the main chain. */
  ghost predicate AllAtTip(g: Block, c: Columns, states: map<Hash, IndexState>)
    requires Tree(g, c.blocks) && c.tip in c.blocks
  {
    forall lock :: lock in states ==> states[lock] == IndexState(|MainPath(g, c)| - 1, c.tip)
  }

  lemma {:induction false} AtTipMeans(g: Block, c: Columns, states: map<Hash, IndexState>, lo: nat)
    requires Tree(g, c.blocks) && c.tip in c.blocks && Lowest(states, lo)
    requires forall lock :: lock in states ==> OnMain(g, c, states[lock])
    ensures AllAtTip(g, c, states) <==> lo == |MainPath(g, c)| - 1
    ensures lo < |MainPath(g, c)|
  {
  }

  /**
    Sync runs, one after the other, without a new block: as many as the main chain has blocks
    bring every state to the tip if and only if the batch size is at least 2, or it is 1 and no
    state is at block 0, or all of them were at the tip already. Strays at block 0 are followed
    again, if anything is attached.
   */
  method SyncUntilDone(indexer: IndexerStore, ghost g: Block, ghost u: Outputs, c: Columns, ghost lo: nat, times: nat)
    requires Tree(g, c.blocks) && c.tip in c.blocks && Snapshot(g, u, c)
    requires indexer.Sound(g, u, c.blocks)
    requires Lowest(indexer.db.states, lo) && times >= |MainPath(g, c)|
    requires forall lock :: lock in indexer.db.states ==> OnMain(g, c, indexer.db.states[lock])
    modifies indexer
    ensures indexer.Sound(g, u, c.blocks)
    ensures var healed := AtStart(old(indexer.db.states), old(indexer.strays), indexer.batchSize);
            indexer.followed == old(indexer.followed) + healed && indexer.strays == old(indexer.strays) - healed
    ensures AllAtTip(g, c, indexer.db.states) <==>
            Moves(lo, indexer.batchSize) || AllAtTip(g, c, old(indexer.db.states))
  {
    hide Snapshot, IndexOk, Lowest, AllAtTip, Synced, Tree, Path, OnMain, Moves, Lost, EndsExact, AllLive, AtStart;
    ghost var len, batch := |MainPath(g, c)|, indexer.batchSize;
    ghost var healed := AtStart(indexer.db.states, indexer.strays, batch);
    AtTipMeans(g, c, indexer.db.states, lo);
    for n := 0 to times
      invariant indexer.Sound(g, u, c.blocks)
      invariant n == 0 ==> indexer.followed == old(indexer.followed) && indexer.strays == old(indexer.strays)
      invariant n == 0 ==> AtStart(indexer.db.states, indexer.strays, batch) == healed
      invariant n > 0 ==> indexer.followed == old(indexer.followed) + healed
      invariant n > 0 ==> indexer.strays == old(indexer.strays) - healed
      invariant n > 0 ==> AtStart(indexer.db.states, indexer.strays, batch) == {}
      invariant Lowest(indexer.db.states, LowAfter(lo, batch, len, n))
      invariant forall lock :: lock in indexer.db.states ==> OnMain(g, c, indexer.db.states[lock])
    {
      OnlyStrays(g, u, c, batch, indexer.db, indexer.followed, indexer.strays);
      ghost var before, strays := indexer.db.states, indexer.strays;
      indexer.SyncIndexStates(g, u, c);
      SyncedGrows(g, c, batch, before, indexer.db.states, strays);
      SyncedLow(g, c, batch, before, indexer.db.states, LowAfter(lo, batch, len, n));
    }
    AtTipMeans(g, c, indexer.db.states, LowAfter(lo, batch, len, times));
    if Moves(lo, batch) { Climbs(lo, batch, len, times); } else { Stuck(lo, batch, len, times); }
  }

  /** The strays that a batch heals when no state has left the main chain. */
  function AtStart(states: map<Hash, IndexState>, strays: set<Hash>, batch: nat): set<Hash> {
    set lock | lock in strays && batch > 0 && lock in states && states[lock].number == 0
  }

  lemma {:induction false} OnlyStrays(g: Block, u: Outputs, c: Columns, batch: nat, x: Index, followed: set<Hash>,
                                      strays: set<Hash>)
    requires Tree(g, c.blocks) && c.tip in c.blocks && IndexOk(g, u, c.blocks, x, followed, strays)
    requires forall lock :: lock in x.states ==> OnMain(g, c, x.states[lock])
    ensures followed + strays - Lost(g, c, batch, x.states, strays) == followed + AtStart(x.states, strays, batch)
    ensures (followed + strays) * Lost(g, c, batch, x.states, strays) == strays - AtStart(x.states, strays, batch)
  {
    hide OnMain, Loses, Tree, Path, IndexOk;
    AllIndexed(g, u, c.blocks, x, followed, strays);
    forall lock | lock in x.states
      ensures !Loses(g, c, lock, x.states[lock]) && Back(g, c, x.states[lock]) == x.states[lock]
    {
      IsPlaced(g, u, c.blocks, x, followed, strays, lock);
      PlacedNumber(g, c.blocks, x.states[lock]);
      NoneLostOnMain(g, c, lock, x.states[lock]);
    }
  }

  lemma {:induction false} SyncedGrows(g: Block, c: Columns, batch: nat, before: map<Hash, IndexState>,
                                       after: map<Hash, IndexState>, strays: set<Hash>)
    requires Tree(g, c.blocks) && c.tip in c.blocks && Synced(g, c, batch, before, after)
    requires forall lock :: lock in before ==> OnMain(g, c, before[lock])
    ensures AtStart(after, strays - AtStart(before, strays, batch), batch) == {}
  {
    hide OnMain;
    if before != map[] {
      var mid, lo :| SyncedVia(g, c, batch, before, mid, lo, after);
    }
  }
}
