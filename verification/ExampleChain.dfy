/**
  A concrete chain for the properties that hold only under a condition. Its genesis block is
  built as the chain specification builds one: a genesis transaction spends the output of
  another. The last block spends that output again, with a transaction proposed two blocks
  before; the service accepts it, because initialising the store applies no genesis input.
 */
module ExampleChain {
  import opened Types
  import opened Ledger
  import opened Store
  import opened CellSet
  import opened MainChain
  import opened Admission
  import opened TwoPhase
  import opened BlockTree
  import opened Chain
  import opened ChainTheorems

  /** Every rule that the model leaves open passes, and a short id is the whole hash. */
  const RULES: Rules := Rules(_ => true, _ => true, h => h, (_, _) => true)

  const OUTPUT: Output := Output(100, 7, 0)

  /** The output of the first genesis transaction, which the second one spends. */
  const SPENT: OutPoint := OutPoint(1, 0)

  const GENESIS: Block := Block(10, ZERO_HASH, 0, 0, 0, 1,
    [Tx(1, [Input(NULL_OUT_POINT, 0)], [OUTPUT], 1), Tx(2, [Input(SPENT, 0)], [OUTPUT], 0)], [], [])

  /** Block 1 proposes the transaction t, and block 3 commits it. */
  function At(t: Tx, i: nat): Block
    requires i < 4
  {
    if i == 0 then GENESIS else
    var cellbase := Tx(2 + i, [Input(NULL_OUT_POINT, i)], [], 1);
    Block(10 + i, 9 + i, i, 0, 0, 1, if i == 3 then [cellbase, t] else [cellbase], [], if i == 1 then [t.hash] else [])
  }

  function Blocks(t: Tx): seq<Block> {
    [At(t, 0), At(t, 1), At(t, 2), At(t, 3)]
  }

  /** A block beside block 3 with more work, which commits nothing. */
  const FORK: Block := Block(20, 12, 3, 0, 0, 2, [Tx(6, [Input(NULL_OUT_POINT, 3)], [], 1)], [], [])

  function ForkChain(t: Tx): seq<Block> {
    Blocks(t)[..3] + [FORK]
  }

  /** The transaction spends the output again: as the genesis transaction itself, or as a new one. */
  predicate SpendsAgain(t: Tx) {
    && t.inputs == [Input(SPENT, 0)]
    && t.hash !in {ZERO_HASH, 1, 3, 4, 5, 6}
    && (t.hash == 2 ==> t == GENESIS.txs[1])
  }

  function AllBlocks(t: Tx): set<Block> {
    Elems(Blocks(t)) + {FORK}
  }

  lemma {:induction false} TxsOfChain(t: Tx, b: Block, i: nat)
    requires b in AllBlocks(t) && i < |b.txs|
    ensures b.txs[i] == t || b.txs[i] == GENESIS.txs[0] || b.txs[i] == GENESIS.txs[1] || b.txs[i] == FORK.txs[0] ||
            exists n :: 1 <= n <= 3 && b.txs[i] == At(t, n).txs[0]
  {
    if b != FORK {
      var n :| 0 <= n < 4 && b == At(t, n);
      if n > 0 && i == 0 { assert b.txs[i] == At(t, n).txs[0]; }
    }
  }

  lemma {:induction false} NoCollisions(t: Tx)
    requires SpendsAgain(t)
    ensures CollisionFree(AllBlocks(t)) && CollisionFree(Elems(Blocks(t)))
  {
    hide AllBlocks;
    forall b, i | b in AllBlocks(t) && 0 <= i < |b.txs| ensures b.txs[i].hash != ZERO_HASH {
      TxsOfChain(t, b, i);
    }
    var bs := AllBlocks(t);
    forall b, i, b', j |
      b in bs && 0 <= i < |b.txs| && b' in bs && 0 <= j < |b'.txs| && b.txs[i].hash == b'.txs[j].hash
      ensures SameRaw(b.txs[i], b'.txs[j])
    {
      TxsOfChain(t, b, i);
      TxsOfChain(t, b', j);
    }
    FewerBlocks(Elems(Blocks(t)), AllBlocks(t)) by { assert Elems(Blocks(t)) <= AllBlocks(t) by { Among(t); } }
  }

  lemma {:induction false} Among(t: Tx)
    ensures Elems(Blocks(t)) <= AllBlocks(t)
  {
  }

  lemma {:induction false} GenesisFits()
    ensures GenesisOk(GENESIS)
  {
    var t := GENESIS.txs[1];
    NoCollisions(t);
    assert GENESIS == Blocks(t)[0];
    FewerBlocks({GENESIS}, Elems(Blocks(t)));
  }

  lemma {:induction false} StillLive(t: Tx, c: Columns)
    requires Agrees(c, Blocks(t)[..3])
    ensures CellAt(c, SPENT).Live?
  {
    var p := Blocks(t)[..3];
    assert p[0] == GENESIS && p[1] == At(t, 1) && p[2] == At(t, 2);
    LiveIsUnspent(c, p, SPENT);
    SpentMeans(p, SPENT);
    ReplayGrows(p, 0);
    assert GENESIS.txs[0].hash in TxHashes(GENESIS);
    assert !SpentOn(p, SPENT);
  }

  lemma {:induction false} InTheWindow(t: Tx)
    ensures TwoPhaseOk(Blocks(t)[..3], At(t, 3), TX_PROPOSAL_WINDOW, RULES.shortId)
  {
    var p, b := Blocks(t)[..3], At(t, 3);
    assert p[1] == At(t, 1) && p[1].proposals[0] == t.hash;
    assert t.hash in ProposalIds(p[1]);
  }

  lemma {:induction false} TxsPass(t: Tx, c: Columns, i: nat)
    requires SpendsAgain(t) && 0 < i < 4 && (i == 3 ==> CellAt(c, SPENT).Live?)
    ensures TxChecks(c, At(t, i))
  {
    var b := At(t, i);
    assert b.txs[0].inputs == [Input(NULL_OUT_POINT, i)] && InputPts(b.txs[0]) == [NULL_OUT_POINT];
    assert OrderedAt(b, 0) && ResolvesTx(c, b, 0);
    if i == 3 {
      assert InputPts(b.txs[1]) == [SPENT];
      assert OrderedAt(b, 1) && ResolvesTx(c, b, 1);
    }
  }

  /** Every block of the chain passes its checks on the columns of the chain below it. */
  lemma {:induction false} BlockPasses(t: Tx, c: Columns, i: nat)
    requires SpendsAgain(t) && 0 < i < 4 && Agrees(c, Blocks(t)[..i])
    ensures NonContextualOk(At(t, i)) && Checks(RULES, c, Blocks(t)[..i], At(t, i))
  {
    hide Agrees, CellAt, SpendsAgain, NonContextualOk, Ordered, Resolves, InputsPresent;
    if i == 3 {
      StillLive(t, c);
      InTheWindow(t);
    }
    TxsPass(t, c, i);
  }

  lemma {:induction false} FreeBelow(t: Tx, i: nat)
    requires i <= 3
    ensures ReplayFree(Blocks(t)[..i])
  {
  }

  lemma {:induction false} NoneFails(t: Tx, i: nat)
    requires SpendsAgain(t) && 0 < i < 4
    ensures !Fails(RULES, Blocks(t)[..i + 1], 1)
  {
    hide Checks, Agrees, GoodPath, ReplayFree, SpendsAgain;
    var np := Blocks(t)[..i + 1];
    forall x, d | 1 <= x < |np| && FailsAt(RULES, np, x, d) ensures false {
      assert np[..x] == Blocks(t)[..x] && np[x] == At(t, x);
      FreeBelow(t, x);
      BlockPasses(t, d, x);
    }
  }

  function HashesBelow(t: Tx, i: nat): set<Hash>
    requires i <= 4
  {
    set k | 0 <= k < i :: At(t, k).hash
  }

  /** The store after the first i blocks. */
  ghost predicate Holds(t: Tx, c: Columns, i: nat)
    requires 0 < i <= 4
  {
    && c.blocks.Keys == HashesBelow(t, i)
    && Tree(GENESIS, c.blocks) && c.tip == At(t, i - 1).hash && MainPath(GENESIS, c) == Blocks(t)[..i]
  }

  lemma {:induction false} NextFits(t: Tx, c: Columns, i: nat)
    requires 0 < i < 4 && Holds(t, c, i)
    ensures Attachable(c.blocks, At(t, i)) && NewPath(GENESIS, c.blocks, At(t, i)) == Blocks(t)[..i + 1]
  {
    hide Tree, Path;
    assert Path(GENESIS, c.blocks, c.tip)[i - 1] == Blocks(t)[i - 1] == c.blocks[c.tip];
    assert At(t, i).hash !in HashesBelow(t, i);
  }

  lemma {:induction false} HoldsNext(t: Tx, c: Columns, i: nat, d: Columns)
    requires 0 < i < 4 && Holds(t, c, i)
    requires d.blocks == c.blocks[At(t, i).hash := At(t, i)] && d.tip == At(t, i).hash
    ensures Holds(t, d, i + 1)
  {
    hide Tree, Stored, Numbered, Linked, At, Blocks, NewPath;
    NextFits(t, c, i);
    NewPathShape(GENESIS, c.blocks, At(t, i));
    assert HashesBelow(t, i + 1) == HashesBelow(t, i) + {At(t, i).hash};
  }

  /** The service takes in the next block of the chain as its tip. */
  lemma {:induction false} NextAccepted(t: Tx, c: Columns, i: nat, d: Columns)
    requires SpendsAgain(t) && 0 < i < 4 && Holds(t, c, i) && Stepped(GENESIS, RULES, c, At(t, i), d)
    ensures InsertedInto(c, At(t, i), d) && d.tip == At(t, i).hash && Holds(t, d, i + 1)
    ensures Reached(GENESIS, RULES, d) <==> ReplayFree(Blocks(t)[..i + 1])
    ensures Reached(GENESIS, RULES, c) && Agrees(c, Blocks(t)[..i])
  {
    hide StoreOk, Checks, ReplayFree, Holds, NonContextualOk, SpendsAgain, Fails;
    var b := At(t, i);
    NextFits(t, c, i);
    NoneFails(t, i);
    assert Agrees(c, Blocks(t)[..i]) by { MainAgrees(t, c, i); }
    BlockPasses(t, c, i);
    assert b.parent == c.tip by { TipIsLast(t, c, i); }
    HoldsNext(t, c, i, d);
  }

  lemma {:induction false} TipIsLast(t: Tx, c: Columns, i: nat)
    requires 0 < i < 4 && Holds(t, c, i)
    ensures At(t, i).parent == c.tip
  {
  }

  lemma {:induction false} MainAgrees(t: Tx, c: Columns, i: nat)
    requires 0 < i < 4 && Holds(t, c, i) && StoreOk(GENESIS, RULES, c)
    ensures Agrees(c, Blocks(t)[..i])
  {
    hide Agrees, PathsGood, Sane, MarksOk, TotalsOk;
  }

  lemma {:induction false} HoldsGenesis(t: Tx, c: Columns)
    requires c == InitColumns(GENESIS)
    ensures Holds(t, c, 1)
  {
    InitTree(GENESIS, c);
    assert HashesBelow(t, 1) == {At(t, 0).hash};
  }

  /** Block i is verified on columns that agree with the chain below it, and becomes the tip. */
  ghost predicate GrowsAt(t: Tx, cs: seq<Columns>, i: nat)
    requires 0 < i < 4 && i < |cs|
  {
    && Reached(GENESIS, RULES, cs[i - 1])
    && Agrees(cs[i - 1], Blocks(t)[..i]) && InsertedInto(cs[i - 1], At(t, i), cs[i])
  }

  /**
    The run on this chain: all three blocks are accepted. If t is a new transaction the last
    store is good; if it is the genesis transaction itself, the run ends there.
   */
  method Grow(t: Tx) returns (cs: seq<Columns>)
    requires SpendsAgain(t)
    ensures |cs| == 4 && cs[3].tip == At(t, 3).hash
    ensures forall i :: 0 < i < 4 ==> GrowsAt(t, cs, i)
    ensures Reached(GENESIS, RULES, cs[3]) <==> t.hash != 2
  {
    hide Stepped, Reached, CollisionFree, GenesisOk, InitColumns, NoneReplays, Spoils, GrowsAt;
    GenesisFits();
    NoCollisions(t);
    var arrivals := Blocks(t)[1..];
    assert Elems(arrivals) + {GENESIS} == Elems(Blocks(t));
    cs := Run(GENESIS, RULES, arrivals);
    Accepted(t, cs);
  }

  lemma {:induction false} Accepted(t: Tx, cs: seq<Columns>)
    requires SpendsAgain(t) && 0 < |cs| <= 4 && cs[0] == InitColumns(GENESIS)
    requires forall i :: 0 <= i < |cs| - 1 ==> Stepped(GENESIS, RULES, cs[i], Blocks(t)[1..][i], cs[i + 1])
    requires if Reached(GENESIS, RULES, cs[|cs| - 1]) then |cs| == 4 else |cs| > 1
    ensures |cs| == 4 && cs[3].tip == At(t, 3).hash
    ensures forall i :: 0 < i < 4 ==> GrowsAt(t, cs, i)
    ensures Reached(GENESIS, RULES, cs[3]) <==> t.hash != 2
  {
    hide Stepped, Reached, Agrees, InsertedInto, ReplayFree, InitColumns, SpendsAgain, Holds;
    HoldsGenesis(t, cs[0]);
    var i := 1;
    while i < |cs|
      invariant 0 < i <= |cs| && Holds(t, cs[i - 1], i)
      invariant forall k :: 0 < k < i ==> GrowsAt(t, cs, k)
      invariant i > 1 ==> cs[i - 1].tip == At(t, i - 1).hash
      invariant i > 1 ==> (Reached(GENESIS, RULES, cs[i - 1]) <==> ReplayFree(Blocks(t)[..i]))
    {
      assert Blocks(t)[1..][i - 1] == At(t, i);
      assert Stepped(GENESIS, RULES, cs[i - 1], At(t, i), cs[i]);
      NextAccepted(t, cs[i - 1], i, cs[i]);
      i := i + 1;
    }
    if |cs| < 4 { FreeBelow(t, |cs|); }
    assert Blocks(t)[..4] == Blocks(t);
    WhenFree(t);
  }

  lemma {:induction false} WhenFree(t: Tx)
    requires SpendsAgain(t)
    ensures ReplayFree(Blocks(t)) <==> t.hash != 2
  {
    var p := Blocks(t);
    assert p[3].txs[1] == t && p[0].txs[1].hash == 2 && |p[0].txs| == 2;
  }

  // ---------------------------------------------------------------- the fork

  lemma {:induction false} ForkPasses(t: Tx, c: Columns)
    ensures NonContextualOk(FORK) && Checks(RULES, c, Blocks(t)[..3], FORK)
  {
    assert FORK.txs[0].inputs == [Input(NULL_OUT_POINT, 3)] && InputPts(FORK.txs[0]) == [NULL_OUT_POINT];
    assert OrderedAt(FORK, 0) && ResolvesTx(c, FORK, 0);
  }

  lemma {:induction false} NoForkFails(t: Tx)
    requires SpendsAgain(t)
    ensures !Fails(RULES, ForkChain(t), 1) && ReplayFree(ForkChain(t))
  {
    var np := ForkChain(t);
    assert ReplayFree(np) by { FreeBelow(t, 3); }
    hide Checks, Agrees, GoodPath, ReplayFree, SpendsAgain, FORK;
    forall x, d | 1 <= x < |np| && FailsAt(RULES, np, x, d) ensures false {
      assert np[..x] == Blocks(t)[..x];
      if x < 3 {
        FreeBelow(t, x);
        BlockPasses(t, d, x);
      } else {
        ForkPasses(t, d);
      }
    }
  }

  lemma {:induction false} ForkFits(t: Tx, c: Columns)
    requires Holds(t, c, 4)
    ensures Attachable(c.blocks, FORK) && NewPath(GENESIS, c.blocks, FORK) == ForkChain(t)
  {
    hide Tree, Path;
    assert MainPath(GENESIS, c) == Blocks(t);
    PathPrefix(GENESIS, c.blocks, c.tip, 2);
    assert FORK.hash !in HashesBelow(t, 4);
    assert c.blocks[At(t, 2).hash] == At(t, 2) by { PathAt(GENESIS, c.blocks, c.tip, 2); }
  }

  /** The fork is heavier than block 3. */
  lemma {:induction false} ForkHeavier(t: Tx, c: Columns)
    requires Holds(t, c, 4) && Reached(GENESIS, RULES, c)
    ensures Heavier(c, FORK)
  {
    hide PathsGood, Agrees, Sane, MarksOk, TipHeaviest;
    ForkFits(t, c);
    assert c.blocks[c.tip] == At(t, 3) by { assert MainPath(GENESIS, c)[3] == At(t, 3); }
    assert HasParent(c.blocks, c.tip) && TotalAdds(c, c.tip);
  }

  /** The service switches to the fork. */
  lemma {:induction false} ForkAccepted(t: Tx, c: Columns, d: Columns)
    requires SpendsAgain(t) && Holds(t, c, 4) && Reached(GENESIS, RULES, c) && Stepped(GENESIS, RULES, c, FORK, d)
    ensures Reached(GENESIS, RULES, d) && d.tip == FORK.hash && MainPath(GENESIS, d) == ForkChain(t)
    ensures At(t, 3).hash in d.blocks && Path(GENESIS, d.blocks, At(t, 3).hash) == Blocks(t)
  {
    hide StoreOk, Checks, ReplayFree, Holds, NonContextualOk, SpendsAgain, Fails, Tree, Path, ForkChain;
    ForkFits(t, c);
    NoForkFails(t);
    ForkPasses(t, c);
    ForkHeavier(t, c);
    NewPathShape(GENESIS, c.blocks, FORK);
    TipPath(t, c);
    PathStable(GENESIS, c.blocks, FORK, c.tip);
  }

  lemma {:induction false} TipPath(t: Tx, c: Columns)
    requires Holds(t, c, 4)
    ensures c.tip == At(t, 3).hash && c.tip in c.blocks && Tree(GENESIS, c.blocks)
    ensures Path(GENESIS, c.blocks, c.tip) == Blocks(t)
  {
    assert Blocks(t)[..4] == Blocks(t);
  }
}
