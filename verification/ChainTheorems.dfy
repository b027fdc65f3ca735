/**
  What the invariant of the chain service says about every store that a run can reach, in terms
  of the main chain itself.
 */
module ChainTheorems {
  import opened Types
  import opened Ledger
  import opened Store
  import opened CellSet
  import opened MainChain
  import opened Admission
  import opened Uncles
  import opened TwoPhase
  import opened BlockTree
  import opened Chain

  /** A store of a run: good, so that the facts about good stores below apply to it. */
  ghost predicate Reached(g: Block, rules: Rules, c: Columns) {
    Tree(g, c.blocks) && c.tip in c.exts && c.exts.Keys == c.blocks.Keys && StoreOk(g, rules, c)
  }

  /**
    What the arrival of a block does to a good store. The new store is good as well, unless a
    chain that commits a genesis transaction again has become the main chain.
   */
  ghost predicate Stepped(g: Block, rules: Rules, c: Columns, b: Block, d: Columns) {
    && Reached(g, rules, c)
    && (Reached(g, rules, d) <==> !(d.tip == b.hash && Replays(g, c.blocks, b)))
    && if !Attachable(c.blocks, b) || !NonContextualOk(b) || !rules.standalone(b) then d == c
       else if d == c then RefusedOn(g, rules, c, b)
       else InsertedInto(c, b, d)
  }

  /**
    Any run: blocks arrive in any order and on any fork. A block whose parent is not stored is
    passed over, as the caller of the service keeps it in the orphan pool. The stores that the
    run goes through, one after each arrival, are all good, up to the first arrival that makes
    a chain on which a genesis transaction is committed again the main chain; the run is not
    followed beyond it.
   */
  method Run(g: Block, rules: Rules, arrivals: seq<Block>) returns (cs: seq<Columns>)
    requires GenesisOk(g) && CollisionFree(Elems(arrivals) + {g})
    ensures 0 < |cs| <= |arrivals| + 1 && cs[0] == InitColumns(g)
    ensures forall i :: 0 <= i < |cs| - 1 ==> Stepped(g, rules, cs[i], arrivals[i], cs[i + 1])
    ensures if Reached(g, rules, cs[|cs| - 1]) then |cs| == |arrivals| + 1 else Spoilt(g, rules, arrivals, cs)
    ensures NoneReplays(g, arrivals) ==> Reached(g, rules, cs[|cs| - 1])
  {
    hide StoreOk, GenesisOk, CollisionFree, NoGenesisReplay, InitColumns, SaneBlock, NonContextualOk, Tree, Stepped,
         Spoils, NoneReplays;
    var service := new ChainService(g, rules);
    FirstBlock(g);
    IsReached(g, rules, service.store);
    cs := [service.store];
    for n := 0 to |arrivals|
      invariant service.Valid() && service.genesis == g && service.rules == rules
      invariant service.store.blocks.Values <= Elems(arrivals) + {g}
      invariant |cs| == n + 1 && cs[0] == InitColumns(g) && cs[n] == service.store
      invariant Reached(g, rules, service.store)
      invariant forall k :: 0 <= k < n ==> Stepped(g, rules, cs[k], arrivals[k], cs[k + 1])
    {
      ghost var before := service.store;
      var spoilt := Process(service, arrivals[n], Elems(arrivals) + {g});
      cs := cs + [service.store];
      if spoilt {
        if NoneReplays(g, arrivals) { NeverSpoilt(g, rules, before, arrivals, n, service.store); }
        return;
      }
    }
  }

  /** The arrival that ends the good part of a run; headers, totals and the indices by number stay right. */
  ghost predicate Spoils(g: Block, rules: Rules, c: Columns, b: Block, d: Columns) {
    && Reached(g, rules, c) && Replays(g, c.blocks, b)
    && d.tip == b.hash && d.blocks == c.blocks[b.hash := b] && !StoreOk(g, rules, d) && HeadersOk(g, d)
  }

  ghost predicate Spoilt(g: Block, rules: Rules, arrivals: seq<Block>, cs: seq<Columns>) {
    1 < |cs| <= |arrivals| + 1 && Spoils(g, rules, cs[|cs| - 2], arrivals[|cs| - 2], cs[|cs| - 1])
  }

  /** No arriving block commits a genesis transaction again. */
  predicate NoneReplays(g: Block, arrivals: seq<Block>) {
    forall i :: 0 <= i < |arrivals| ==> NoGenesisReplay(g, arrivals[i])
  }

  lemma {:induction false} NeverSpoilt(g: Block, rules: Rules, c: Columns, arrivals: seq<Block>, n: nat, d: Columns)
    requires NoneReplays(g, arrivals) && n < |arrivals| && c.blocks.Values <= Elems(arrivals) + {g}
    ensures !Spoils(g, rules, c, arrivals[n], d)
  {
    hide StoreOk, HeadersOk, NoGenesisReplay;
    var b := arrivals[n];
    if Spoils(g, rules, c, b, d) {
      var np := NewPath(g, c.blocks, b);
      NewPathShape(g, c.blocks, b);
      forall i | 0 < i < |np| ensures NoGenesisReplay(np[0], np[i]) {
        assert np[i].number != g.number;
        assert c.blocks[b.hash := b][np[i].hash] == np[i];
        assert np[i] in c.blocks.Values + {b};
        assert np[i] in Elems(arrivals) + {g};
      }
    }
  }

  lemma {:induction false} IsReached(g: Block, rules: Rules, c: Columns)
    requires StoreOk(g, rules, c)
    ensures Reached(g, rules, c)
  {
    StoreFacts(g, rules, c);
  }

  /** One arrival at the service. */
  method Process(service: ChainService, b: Block, ghost all: set<Block>) returns (spoilt: bool)
    requires service.Valid() && CollisionFree(all) && b in all
    requires service.store.blocks.Values <= all && Reached(service.genesis, service.rules, service.store)
    modifies service
    ensures service.store.blocks.Values <= all
    ensures spoilt <==> !Reached(service.genesis, service.rules, service.store)
    ensures !spoilt ==> service.Valid()
    ensures spoilt ==> Spoils(service.genesis, service.rules, old(service.store), b, service.store)
    ensures Stepped(service.genesis, service.rules, old(service.store), b, service.store)
  {
    hide StoreOk, HeadersOk, CollisionFree, NoGenesisReplay, SaneBlock, NonContextualOk, Tree, RefusedOn, ReplayFree;
    spoilt := false;
    if Attachable(service.store.blocks, b) {
      ArrivalSane(service.store.blocks, b, all);
      ghost var before := service.store.blocks;
      var replays := Replays(service.genesis, service.store.blocks, b);
      var r := service.InsertBlock(b);
      spoilt := replays && r == Inserted && service.store.tip == b.hash;
      assert before[b.hash := b].Values <= before.Values + {b};
      assert r == Inserted ==> b.hash in service.store.blocks;
      assert r.Refused? ==> r.error == NonContextual || r.error == InvalidParent || r.error == Contextual;
    }
    if !spoilt { IsReached(service.genesis, service.rules, service.store); }
  }

  lemma {:induction false} FirstBlock(g: Block)
    ensures InitColumns(g).blocks.Values <= {g}
  {
  }

  lemma {:induction false} ArrivalSane(blocks: map<Hash, Block>, b: Block, all: set<Block>)
    requires blocks.Values <= all && b in all && CollisionFree(all)
    ensures SaneBlock(blocks, b)
  {
    FewerBlocks(blocks.Values + {b}, all);
  }

  // ---------------------------------------------------------------- cells

  predicate CreatedBy(tx: Tx, op: OutPoint) {
    tx.hash == op.txHash && op.index < |tx.outputs|
  }

  ghost predicate CreatedOn(p: seq<Block>, op: OutPoint) {
    exists i, j :: 0 <= i < |p| && 0 <= j < |p[i].txs| && CreatedBy(p[i].txs[j], op)
  }

  /** Spent by a transaction after genesis; the inputs of genesis transactions do not count. */
  ghost predicate SpentOn(p: seq<Block>, op: OutPoint) {
    exists i, j :: 0 < i < |p| && 0 <= j < |p[i].txs| && !IsCellbase(p[i].txs[j]) && op in InputPts(p[i].txs[j])
  }

  lemma {:induction false} SpentHere(s: State, b: Block, k: nat, op: OutPoint)
    requires k <= |b.txs| && op in ApplyTxs(s, b, k).spent && op !in s.spent
    ensures exists j :: 0 <= j < k && op in Spends(RecAt(b, j))
  {
    if op !in Elems(Spends(RecAt(b, k - 1))) { SpentHere(s, b, k - 1, op); }
  }

  lemma {:induction false} SpentSomewhere(p: seq<Block>, op: OutPoint)
    requires Numbered(p) && op in Replay(p).spent
    ensures SpentOn(p, op)
  {
    var q, b := p[..|p| - 1], p[|p| - 1];
    if op in Replay(q).spent {
      SpentSomewhere(q, op);
      var i, j :| 0 < i < |q| && 0 <= j < |q[i].txs| && !IsCellbase(q[i].txs[j]) && op in InputPts(q[i].txs[j]);
      assert q[i] == p[i];
    } else {
      SpentHere(Replay(q), b, |b.txs|, op);
      var j :| 0 <= j < |b.txs| && op in Spends(RecAt(b, j));
      assert p[|p| - 1].txs[j] == b.txs[j];
    }
  }

  lemma {:induction false} SpentMeans(p: seq<Block>, op: OutPoint)
    requires ChainOk(p)
    ensures op in Replay(p).spent <==> SpentOn(p, op)
  {
    if op in Replay(p).spent { SpentSomewhere(p, op); }
    if SpentOn(p, op) {
      var i, j :| 0 < i < |p| && 0 <= j < |p[i].txs| && !IsCellbase(p[i].txs[j]) && op in InputPts(p[i].txs[j]);
      ReplayGrows(p, i);
      assert op in Spends(RecAt(p[i], j));
      assert op in BlockSpends(p[i]);
    }
  }

  lemma {:induction false} CreatedMeans(p: seq<Block>, op: OutPoint)
    requires ChainOk(p)
    ensures Created(Replay(p), op) <==> CreatedOn(p, op)
  {
    if op.txHash in Replay(p).txs {
      RecsOfChain(p, op.txHash);
      ReplayOk(p);
    }
    if CreatedOn(p, op) {
      var i, j :| 0 <= i < |p| && 0 <= j < |p[i].txs| && CreatedBy(p[i].txs[j], op);
      ReplayGrows(p, i);
      assert op.txHash in TxHashes(p[i]);
    }
  }

  /**
    In every reachable store the cell set answers live exactly for the outputs created on the
    main chain and not spent by a block after genesis.
   */
  lemma {:induction false} LiveOnMainChain(g: Block, rules: Rules, c: Columns, op: OutPoint)
    requires Tree(g, c.blocks) && c.tip in c.blocks && StoreOk(g, rules, c)
    ensures CellAt(c, op).Live? <==> CreatedOn(MainPath(g, c), op) && !SpentOn(MainPath(g, c), op)
    ensures var p := MainPath(g, c);
            forall i: nat, j: nat :: i < |p| && j < |p[i].txs| && CreatedBy(p[i].txs[j], op) && CellAt(c, op).Live? ==>
              CellAt(c, op) == Live(p[i].txs[j].outputs[op.index], TxInfo(p[i].hash, j, i, p[i].epoch))
  {
    var p := MainPath(g, c);
    assert Agrees(c, p);
    hide StoreOk, CreatedOn, SpentOn, MainPath;
    AgreesChain(c, p);
    LiveIsUnspent(c, p, op);
    SpentMeans(p, op);
    CreatedMeans(p, op);
    forall i: nat, j: nat | i < |p| && j < |p[i].txs| && CreatedBy(p[i].txs[j], op) && CellAt(c, op).Live?
      ensures CellAt(c, op) == Live(p[i].txs[j].outputs[op.index], TxInfo(p[i].hash, j, i, p[i].epoch))
    {
      LiveAnswer(c, p, op, i, j);
    }
  }

  /** A live answer carries the output itself and where it was committed. */
  lemma {:induction false} LiveAnswer(c: Columns, p: seq<Block>, op: OutPoint, i: nat, j: nat)
    requires Agrees(c, p) && i < |p| && j < |p[i].txs| && CreatedBy(p[i].txs[j], op) && CellAt(c, op).Live?
    ensures CellAt(c, op) == Live(p[i].txs[j].outputs[op.index], TxInfo(p[i].hash, j, i, p[i].epoch))
  {
    AgreesChain(c, p);
    RecordAt(p, i, j);
    StoredBacks(c.blocks, p);
    LiveExactly(Replay(p), c, op);
  }

  /** The number index of a reachable store, both ways, lists the main chain. */
  lemma {:induction false} IndicesOnMainChain(g: Block, rules: Rules, c: Columns, n: nat, h: Hash)
    requires Tree(g, c.blocks) && c.tip in c.blocks && StoreOk(g, rules, c)
    ensures IndicesList(c, MainPath(g, c), n, h)
  {
    hide PathsGood, MarksOk, TotalsOk, Sane, Agrees, IndicesList, Path, Tree;
    IndicesMean(c, MainPath(g, c), n, h);
  }

  /** The heights below the length lead to the blocks and back, and no other hash is listed. */
  ghost predicate IndicesList(c: Columns, p: seq<Block>, n: nat, h: Hash) {
    && (n in c.hashOf <==> n < |p|)
    && (n < |p| ==> c.hashOf[n] == p[n].hash && p[n].hash in c.numberOf && c.numberOf[p[n].hash] == n)
    && (h in c.numberOf <==> OnChain(p, h))
  }

  lemma {:induction false} IndicesMean(c: Columns, p: seq<Block>, n: nat, h: Hash)
    requires Agrees(c, p)
    ensures IndicesList(c, p, n, h)
  {
    hide Agrees, NumberIndex;
    AgreesNumbers(c, p);
    NumberIndexKeys(p, h);
    if n < |p| { NumberIndexAt(c, p, n); }
  }

  lemma {:induction false} NumberIndexAt(c: Columns, p: seq<Block>, n: nat)
    requires Agrees(c, p) && n < |p|
    ensures p[n].hash in NumberIndex(p) && NumberIndex(p)[p[n].hash] == n
  {
    AgreesStored(c, p);
    hide Agrees;
    NumberIndexValue(c.blocks, p, n);
  }

  lemma {:induction false} AgreesNumbers(c: Columns, p: seq<Block>)
    requires Agrees(c, p)
    ensures c.hashOf == HashIndex(p) && c.numberOf == NumberIndex(p)
  {
  }

  lemma {:induction false} AgreesStored(c: Columns, p: seq<Block>)
    requires Agrees(c, p)
    ensures Stored(c.blocks, p) && Numbered(p)
  {
  }

  lemma {:induction false} NumberIndexValue(blocks: map<Hash, Block>, p: seq<Block>, n: nat)
    requires Stored(blocks, p) && Numbered(p) && n < |p|
    ensures p[n].hash in NumberIndex(p) && NumberIndex(p)[p[n].hash] == n
  {
    var q := p[..|p| - 1];
    if n < |q| {
      assert Stored(blocks, q) && q[n] == p[n];
      NumberIndexValue(blocks, q, n);
      assert blocks[p[n].hash] == p[n] && blocks[p[|p| - 1].hash] == p[|p| - 1];
    }
  }

  /** The transaction infos of a reachable store: where each transaction of the main chain is committed. */
  lemma {:induction false} InfosOnMainChain(g: Block, rules: Rules, c: Columns, h: Hash)
    requires Tree(g, c.blocks) && c.tip in c.blocks && StoreOk(g, rules, c)
    ensures var p := MainPath(g, c);
            && (h in c.txInfo <==> exists i, j :: 0 <= i < |p| && 0 <= j < |p[i].txs| && p[i].txs[j].hash == h)
            && forall i: nat, j: nat :: i < |p| && j < |p[i].txs| && p[i].txs[j].hash == h && h in c.txInfo ==>
                 c.txInfo[h] == TxInfo(p[i].hash, j, i, p[i].epoch)
  {
    hide StoreOk, Agrees, Replay, ChainOk, InfoMap, Path, Tree;
    var p := MainPath(g, c);
    AgreesInfos(g, rules, c);
    if h in InfoMap(Replay(p)) { InfoKnown(p, h); }
    forall i: nat, j: nat | i < |p| && j < |p[i].txs| && p[i].txs[j].hash == h
      ensures h in InfoMap(Replay(p)) && InfoMap(Replay(p))[h] == TxInfo(p[i].hash, j, i, p[i].epoch)
    {
      InfoOfTx(p, i, j);
    }
  }

  lemma {:induction false} AgreesInfos(g: Block, rules: Rules, c: Columns)
    requires Tree(g, c.blocks) && c.tip in c.blocks && StoreOk(g, rules, c)
    ensures ChainOk(MainPath(g, c)) && c.txInfo == InfoMap(Replay(MainPath(g, c)))
  {
    hide ChainOk, InfoMap, Replay, CellMap, UncleMap, HashIndex, NumberIndex, PathsGood, MarksOk, TotalsOk, Sane;
  }

  lemma {:induction false} InfoKnown(p: seq<Block>, h: Hash)
    requires ChainOk(p) && h in InfoMap(Replay(p))
    ensures exists i, j :: 0 <= i < |p| && 0 <= j < |p[i].txs| && p[i].txs[j].hash == h
  {
    RecordOf(p, h);
    var r := Replay(p).txs[h];
    assert p[r.number].txs[r.index].hash == h;
  }

  lemma {:induction false} InfoOfTx(p: seq<Block>, i: nat, j: nat)
    requires ChainOk(p) && i < |p| && j < |p[i].txs|
    ensures var h := p[i].txs[j].hash;
            h in InfoMap(Replay(p)) && InfoMap(Replay(p))[h] == TxInfo(p[i].hash, j, i, p[i].epoch)
  {
    hide Replay, ChainOk;
    RecordAt(p, i, j);
  }

  lemma {:induction false} RecordOf(p: seq<Block>, h: Hash)
    requires ChainOk(p) && h in Replay(p).txs
    ensures var r := Replay(p).txs[h];
            r.number < |p| && r.index < |p[r.number].txs| && r == RecAt(p[r.number], r.index) && r.tx.hash == h
  {
    RecsOfChain(p, h);
    ReplayOk(p);
  }

  lemma {:induction false} RecordAt(p: seq<Block>, i: nat, j: nat)
    requires ChainOk(p) && i < |p| && j < |p[i].txs|
    ensures p[i].txs[j].hash in Replay(p).txs && Replay(p).txs[p[i].txs[j].hash] == RecAt(p[i], j) && p[i].number == i
  {
    ReplayGrows(p, i);
    assert p[i].txs[j].hash in TxHashes(p[i]);
  }

  /** The cell-set entry of transaction j of block i: which outputs are spent, and where it was committed. */
  ghost predicate EntryHolds(cells: map<Hash, Meta>, p: seq<Block>, i: nat, j: nat)
    requires i < |p| && j < |p[i].txs|
  {
    var tx := p[i].txs[j];
    && (tx.hash in cells <==>
          tx.outputs == [] || exists k: nat :: k < |tx.outputs| && !SpentOn(p, OutPoint(tx.hash, k)))
    && (tx.hash in cells ==>
          var m := cells[tx.hash];
          && m.number == i && m.epoch == p[i].epoch && m.blockHash == p[i].hash && m.cellbase == IsCellbase(tx)
          && |m.dead| == |tx.outputs|
          && forall k: nat :: k < |tx.outputs| ==> (m.dead[k] <==> SpentOn(p, OutPoint(tx.hash, k))))
  }

  lemma {:induction false} EntryOf(s: State, r: Rec, h: Hash)
    requires h in s.txs && s.txs[h] == r
    ensures h in CellMap(s) <==> r.tx.outputs == [] || exists k: nat :: k < |r.tx.outputs| && OutPoint(h, k) !in s.spent
    ensures h in CellMap(s) ==>
              var m := CellMap(s)[h];
              && m.number == r.number && m.epoch == r.epoch && m.blockHash == r.blockHash
              && m.cellbase == IsCellbase(r.tx) && |m.dead| == |r.tx.outputs|
              && forall k: nat :: k < |r.tx.outputs| ==> (m.dead[k] <==> OutPoint(h, k) in s.spent)
  {
  }

  lemma {:induction false} EntryIs(p: seq<Block>, i: nat, j: nat)
    requires ChainOk(p) && i < |p| && j < |p[i].txs|
    ensures EntryHolds(CellMap(Replay(p)), p, i, j)
  {
    hide CellMap, Replay, SpentOn, ChainOk;
    var tx, s := p[i].txs[j], Replay(p);
    RecordAt(p, i, j);
    EntryOf(s, RecAt(p[i], j), tx.hash);
    forall k: nat | k < |tx.outputs| ensures OutPoint(tx.hash, k) in s.spent <==> SpentOn(p, OutPoint(tx.hash, k)) {
      SpentMeans(p, OutPoint(tx.hash, k));
    }
  }

  /** The cell set of a reachable store has these entries for the transactions of the main chain, and no others. */
  lemma {:induction false} CellsOnMainChain(g: Block, rules: Rules, c: Columns, i: nat, j: nat)
    requires Tree(g, c.blocks) && c.tip in c.blocks && StoreOk(g, rules, c)
    requires i < |MainPath(g, c)| && j < |MainPath(g, c)[i].txs|
    ensures EntryHolds(c.cells, MainPath(g, c), i, j) && c.cells.Keys <= c.txInfo.Keys
  {
    var p := MainPath(g, c);
    assert Agrees(c, p);
    hide StoreOk, MainPath;
    AgreesChain(c, p);
    hide ChainOk, EntryHolds, Replay;
    EntryIs(p, i, j);
  }

  /** No transaction hash occurs twice on a main chain. */
  lemma {:induction false} CommittedOnce(p: seq<Block>, i: nat, j: nat, i': nat, j': nat)
    requires ChainOk(p) && i < |p| && j < |p[i].txs| && i' < |p| && j' < |p[i'].txs|
    requires p[i].txs[j].hash == p[i'].txs[j'].hash
    ensures i == i' && j == j'
  {
    ReplayGrows(p, i);
    ReplayGrows(p, i');
    assert RecAt(p[i], j) == RecAt(p[i'], j');
  }

  // ---------------------------------------------------------------- verification marks

  /** Every block of a verified chain is valid on the blocks below it, whatever columns it was checked on. */
  lemma {:induction false} AllValid(rules: Rules, p: seq<Block>, i: nat)
    requires GoodPath(rules, p) && CollisionFree(Elems(p)) && 0 < i < |p|
    ensures ValidOn(rules, p[..i], p[i])
  {
    GoodIsOk(rules, p);
    var c := CheckedOn(rules, p, i);
    hide Agrees, Checks, ChainOk, GoodPath, CollisionFree, NonContextualOk, NoGenesisReplay, BlocksChecked, ValidOn;
    LedgerReplayFree(p);
    PrefixCollisionFree(p, i);
    ChecksExactly(rules, c, p[..i], p[i]);
  }

  lemma {:induction false} CheckedOn(rules: Rules, p: seq<Block>, i: nat) returns (c: Columns)
    requires GoodPath(rules, p) && 0 < i < |p|
    ensures Agrees(c, p[..i]) && Checks(rules, c, p[..i], p[i])
    ensures BlocksChecked(p[..i]) && NonContextualOk(p[i]) && p[i].number == i && p[..i][0] == p[0]
  {
    hide Agrees, Checks, NonContextualOk, LedgerOk, UnclesOk;
    assert PassedAt(rules, p, i);
    c :| Agrees(c, p[..i]) && Checks(rules, c, p[..i], p[i]);
  }

  lemma {:induction false} PathCollisionFree(g: Block, blocks: map<Hash, Block>, h: Hash)
    requires Tree(g, blocks) && h in blocks && CollisionFree(blocks.Values)
    ensures CollisionFree(Elems(Path(g, blocks, h)))
  {
    hide CollisionFree;
    PathShape(g, blocks, h);
    var p := Path(g, blocks, h);
    forall b | b in Elems(p) ensures b in blocks.Values {
      var i :| 0 <= i < |p| && p[i] == b;
      assert blocks[p[i].hash] == b;
    }
    FewerBlocks(Elems(p), blocks.Values);
  }

  /** On every reachable main chain each block is valid on the blocks below it. */
  lemma {:induction false} MainChainValid(g: Block, rules: Rules, c: Columns, i: nat)
    requires Tree(g, c.blocks) && c.tip in c.blocks && StoreOk(g, rules, c) && 0 < i < |MainPath(g, c)|
    ensures ValidOn(rules, MainPath(g, c)[..i], MainPath(g, c)[i])
  {
    hide Agrees, GoodPath, MarksOk, TotalsOk, CollisionFree, ValidOn, Path, Tree;
    PathCollisionFree(g, c.blocks, c.tip);
    AllValid(rules, MainPath(g, c), i);
  }

  /** A positive mark means: verified against the replay of the block's own ancestors, which are marked too. */
  lemma {:induction false} MarkedMeansVerified(g: Block, rules: Rules, c: Columns, h: Hash)
    requires StoreOk(g, rules, c) && h in c.exts
    ensures c.exts[h].verified != Some(false)
    ensures c.exts[h].verified == Some(true) && c.blocks[h].number > 0 ==>
              && Tree(g, c.blocks) && c.blocks[h].parent in c.exts
              && c.exts[c.blocks[h].parent].verified == Some(true)
              && Passed(rules, Path(g, c.blocks, c.blocks[h].parent), c.blocks[h])
  {
    hide Agrees, Passed, TotalsOk, Sane, ChainOk, BlocksChecked;
    if c.exts[h].verified == Some(true) && c.blocks[h].number > 0 {
      var p := Path(g, c.blocks, h);
      assert HasParent(c.blocks, h) && MarkInherited(c, h);
      assert PassedAt(rules, p, |p| - 1);
      assert p[..|p| - 1] == Path(g, c.blocks, c.blocks[h].parent);
      var v := c.exts[c.blocks[h].parent].verified;
      assert v.value == true || v == Some(false);
    }
  }

  // ---------------------------------------------------------------- difficulty

  function SumDifficulty(p: seq<Block>): nat {
    if p == [] then 0 else SumDifficulty(p[..|p| - 1]) + p[|p| - 1].difficulty
  }

  /** Stored totals are sums along the ancestors, for difficulty and for uncles. */
  lemma {:induction false} TotalsAreSums(g: Block, c: Columns, h: Hash)
    requires Tree(g, c.blocks) && c.exts.Keys == c.blocks.Keys && TotalsOk(g, c) && g.uncles == [] && h in c.blocks
    ensures c.exts[h].totalDifficulty == SumDifficulty(Path(g, c.blocks, h))
    ensures c.exts[h].totalUncles == TotalUncles(Path(g, c.blocks, h))
    decreases c.blocks[h].number
  {
    var p := Path(g, c.blocks, h);
    if c.blocks[h].number == 0 {
      assert p == [g] && p[..0] == [];
    } else {
      assert HasParent(c.blocks, h) && TotalAdds(c, h);
      TotalsAreSums(g, c, c.blocks[h].parent);
      assert p[..|p| - 1] == Path(g, c.blocks, c.blocks[h].parent);
    }
  }

  /** The tip of a reachable store has the greatest sum of difficulties of all stored chains. */
  lemma {:induction false} TipIsHeaviest(g: Block, rules: Rules, c: Columns, h: Hash)
    requires Tree(g, c.blocks) && c.tip in c.blocks && h in c.blocks && StoreOk(g, rules, c)
    ensures SumDifficulty(Path(g, c.blocks, h)) <= SumDifficulty(MainPath(g, c))
  {
    hide Agrees, PathsGood, Sane, MarksOk;
    TotalsAreSums(g, c, h);
    TotalsAreSums(g, c, c.tip);
  }

  /** The tip moves to a stored block exactly if its chain has a strictly greater sum: the first of equals stays. */
  lemma {:induction false} TipMovesExactly(g: Block, rules: Rules, c: Columns, b: Block, d: Columns)
    requires Stepped(g, rules, c, b, d) && d != c && Tree(g, c.blocks) && c.tip in c.blocks && b.parent in c.blocks
    ensures d.tip == if SumDifficulty(NewPath(g, c.blocks, b)) > SumDifficulty(MainPath(g, c)) then b.hash else c.tip
  {
    hide Agrees, PathsGood, Sane, MarksOk, RefusedOn, Replays, NonContextualOk;
    TotalsAreSums(g, c, b.parent);
    TotalsAreSums(g, c, c.tip);
    assert NewPath(g, c.blocks, b)[..|NewPath(g, c.blocks, b)| - 1] == Path(g, c.blocks, b.parent);
  }

  // ---------------------------------------------------------------- uncles

  lemma {:induction false} GoodUncles(rules: Rules, p: seq<Block>)
    requires GoodPath(rules, p) && p != [] && p[0].uncles == []
    ensures UnclesValid(p, rules.uncle)
  {
    hide Agrees, UnclesPass, TwoPhaseOk, Resolves, Ordered;
    forall i | 0 < i < |p| ensures PassedBelow(p[..i], p[i], rules.uncle) {
      assert PassedAt(rules, p, i);
    }
  }

  /**
    On every reachable main chain: the uncles column has as many entries as the blocks embed,
    every uncle is rooted in the main chain, and the stored total of the tip counts them.
   */
  lemma {:induction false} UnclesOnMainChain(g: Block, rules: Rules, c: Columns)
    requires Tree(g, c.blocks) && c.tip in c.blocks && StoreOk(g, rules, c)
    ensures |c.uncles| == TotalUncles(MainPath(g, c)) == c.exts[c.tip].totalUncles
    ensures forall h :: h in c.uncles <==> exists i :: 0 <= i < |MainPath(g, c)| && Embeds(MainPath(g, c), i, h)
    ensures forall h :: h in c.uncles ==> Rooted(MainPath(g, c), c.uncles[h])
  {
    var p := MainPath(g, c);
    assert GoodPath(rules, p) && Agrees(c, p);
    hide PathsGood, Sane, MarksOk, GoodPath, ChainOk, CellMap, InfoMap, Replay, Stored;
    GoodUncles(rules, p);
    AllRooted(p, rules.uncle);
    AgreesChain(c, p);
    assert UnclesOk(p) by { UnclesOfChain(p); }
    UncleCount(p);
    TotalsAreSums(g, c, c.tip);
  }

  /** On every reachable main chain no embedded uncle is a block of that chain. */
  lemma {:induction false} NoUncleOnMainChain(g: Block, rules: Rules, c: Columns, i: nat, k: nat, j: nat)
    requires Tree(g, c.blocks) && c.tip in c.blocks && StoreOk(g, rules, c) && HeadersInjective(MainPath(g, c))
    requires i < |MainPath(g, c)| && k < |MainPath(g, c)[i].uncles| && j < |MainPath(g, c)|
    ensures MainPath(g, c)[i].uncles[k].hash != MainPath(g, c)[j].hash
  {
    hide GoodPath, Agrees, UnclesValid, HeadersInjective, MarksOk, TotalsOk, Sane, Path;
    GoodUncles(rules, MainPath(g, c));
    NeverMainChain(MainPath(g, c), rules.uncle, i, k, j);
  }

  lemma {:induction false} UnclesOfChain(p: seq<Block>)
    requires ChainOk(p)
    ensures UnclesOk(p)
  {
  }

  /** The difference of two stored totals is the number of uncles embedded after the lower block. */
  lemma {:induction false} UnclesBetween(g: Block, c: Columns, h: Hash, i: nat, j: nat)
    requires Tree(g, c.blocks) && c.exts.Keys == c.blocks.Keys && TotalsOk(g, c) && g.uncles == [] && h in c.blocks
    requires i <= j <= c.blocks[h].number
    ensures var p := Path(g, c.blocks, h);
            && p[i].hash in c.exts && p[j].hash in c.exts
            && c.exts[p[j].hash].totalUncles - c.exts[p[i].hash].totalUncles == TotalUncles(p[i + 1..j + 1])
  {
    hide TotalsOk, Tree, Path, TotalUncles, SumDifficulty;
    var p := Path(g, c.blocks, h);
    PathPrefix(g, c.blocks, h, i);
    PathPrefix(g, c.blocks, h, j);
    TotalsAreSums(g, c, p[i].hash);
    TotalsAreSums(g, c, p[j].hash);
    TotalsTelescope(p, i + 1, j + 1);
  }

  // ---------------------------------------------------------------- two-step confirmation

  /** Every transaction of a reachable main chain was proposed within the window before its commitment. */
  lemma {:induction false} ProposedBeforeCommitted(rules: Rules, p: seq<Block>, i: nat, j: nat)
    requires GoodPath(rules, p) && 0 < i < |p| && 0 < j < |p[i].txs|
    ensures Proposed(p, i, 2, 10, rules.shortId(p[i].txs[j].hash))
  {
    assert PassedAt(rules, p, i);
    assert p[i].number == i;
    hide Agrees, UnclesPass, Resolves, Ordered, Names, TwoPhaseOk, ChainOk, BlocksChecked, AllPassed;
    CommitExactly(p[..i], p[i], rules.shortId);
    var id, q := rules.shortId(p[i].txs[j].hash), p[..i];
    assert Proposed(q, i, 2, 10, id);
    var a :| 0 < a < |q| && 2 <= i - a <= 10 && Names(q[a], id);
    assert q[a] == p[a];
  }
}
