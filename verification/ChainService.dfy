/**
  The chain service: inserting a block, with the reorganisation it may cause, and the invariant
  that every run keeps.
 */
module Chain {
  import opened Types
  import opened Ledger
  import opened Store
  import opened CellSet
  import opened MainChain
  import opened Admission
  import opened Uncles
  import opened TwoPhase
  import opened BlockTree
  import opened Fork

  /**
    What the model leaves open: block rules that need no context, the uncle rules on proposals
    and proof of work, the short id of a transaction, and every contextual rule not spelled out
    here (epoch, reward, dao field, scripts), which may read all columns.
   */
  datatype Rules = Rules(
    standalone: Block -> bool,
    uncle: Uncle -> bool,
    shortId: Hash -> Hash,
    contextual: (Columns, Block) -> bool)

  /** `ContextualBlockVerifier` and the resolution before it, for a block on top of the chain q. */
  predicate Checks(rules: Rules, c: Columns, q: seq<Block>, b: Block) {
    && InputsPresent(b) && Ordered(b) && Resolves(c, b)
    && UnclesPass(c, b, rules.uncle)
    && TwoPhaseOk(q, b, TX_PROPOSAL_WINDOW, rules.shortId)
    && rules.contextual(c, b)
  }

  /**
    A valid block on top of the chain q, without any columns: it obeys the ledger, its uncles fit
    the chain, and its transactions were proposed in time.
   */
  ghost predicate ValidOn(rules: Rules, q: seq<Block>, b: Block) {
    && InputsPresent(b) && TxsOk(Replay(q), b, |b.txs|)
    && |b.uncles| <= 2 && (forall k :: 0 <= k < |b.uncles| ==> UncleFits(q, b, rules.uncle, k))
    && forall i :: 0 < i < |b.txs| ==> Proposed(q, |q|, 2, 10, rules.shortId(b.txs[i].hash))
  }

  /** On columns that hold the replay of a chain, a block is accepted if and only if it is valid on that chain. */
  lemma {:induction false} ChecksExactly(rules: Rules, c: Columns, q: seq<Block>, b: Block)
    requires Agrees(c, q) && q != [] && BlocksChecked(q) && b.number == |q| && NonContextualOk(b)
    requires CollisionFree(Elems(q) + {b}) && NoGenesisReplay(q[0], b)
    ensures Checks(rules, c, q, b) <==> ValidOn(rules, q, b) && rules.contextual(c, b)
  {
    hide Agrees, BlocksChecked, NonContextualOk, CollisionFree, NoGenesisReplay, Ordered, Resolves, TxsOk, UnclesPass,
         UncleFits, TwoPhaseOk, Proposed, Replay;
    if InputsPresent(b) { AcceptedExactly(c, q, b); }
    PassExactly(c, q, b, rules.uncle);
    CommitExactly(q, b, rules.shortId);
  }

  /** The block was verified against columns that hold exactly the replay of the chain q. */
  ghost predicate Passed(rules: Rules, q: seq<Block>, b: Block) {
    exists c: Columns :: Agrees(c, q) && Checks(rules, c, q, b)
  }

  /** A chain all of whose blocks after genesis were verified against their own ancestors. */
  ghost predicate GoodPath(rules: Rules, p: seq<Block>) {
    ChainOk(p) && BlocksChecked(p) && AllPassed(rules, p)
  }

  ghost predicate AllPassed(rules: Rules, p: seq<Block>) {
    forall i :: 0 < i < |p| ==> PassedAt(rules, p, i)
  }

  ghost predicate PassedAt(rules: Rules, p: seq<Block>, i: nat)
    requires i < |p|
  {
    Passed(rules, p[..i], p[i])
  }

  /** Stored blocks: no hash collision among them, and all but genesis passed the checks without context. */
  ghost predicate Sane(blocks: map<Hash, Block>) {
    && CollisionFree(blocks.Values)
    && (forall h :: h in blocks && blocks[h].number > 0 ==> NonContextualOk(blocks[h]))
  }

  /** Verification marks: never negative, and never on a block whose parent has none. */
  predicate MarksOk(g: Block, c: Columns)
    requires Tree(g, c.blocks) && c.exts.Keys == c.blocks.Keys
  {
    && (forall h :: h in c.exts ==> c.exts[h].verified != Some(false))
    && c.exts[g.hash].verified == Some(true)
    && (forall h {:trigger MarkInherited(c, h)} :: h in c.exts && c.blocks[h].number > 0 ==>
          HasParent(c.blocks, h) && MarkInherited(c, h))
  }

  predicate MarkInherited(c: Columns, h: Hash)
    requires h in c.blocks && HasParent(c.blocks, h) && c.exts.Keys == c.blocks.Keys
  {
    c.exts[h].verified.Some? ==> c.exts[c.blocks[h].parent].verified.Some?
  }

  /** Each stored total is the parent's total plus the block's own contribution. */
  predicate TotalsOk(g: Block, c: Columns)
    requires Tree(g, c.blocks) && c.exts.Keys == c.blocks.Keys
  {
    && c.exts[g.hash].totalDifficulty == g.difficulty && c.exts[g.hash].totalUncles == 0
    && forall h {:trigger TotalAdds(c, h)} :: h in c.exts && c.blocks[h].number > 0 ==>
         HasParent(c.blocks, h) && TotalAdds(c, h)
  }

  predicate TotalAdds(c: Columns, h: Hash)
    requires h in c.blocks && HasParent(c.blocks, h) && c.exts.Keys == c.blocks.Keys
  {
    var parent := c.exts[c.blocks[h].parent];
    c.exts[h].totalDifficulty == parent.totalDifficulty + c.blocks[h].difficulty &&
    c.exts[h].totalUncles == parent.totalUncles + |c.blocks[h].uncles|
  }

  ghost predicate PathsGood(g: Block, rules: Rules, c: Columns)
    requires Tree(g, c.blocks) && c.exts.Keys == c.blocks.Keys
  {
    forall h :: h in c.exts && c.exts[h].verified == Some(true) ==> GoodPath(rules, Path(g, c.blocks, h))
  }

  predicate TipHeaviest(c: Columns) {
    c.tip in c.exts && forall h :: h in c.exts ==> c.exts[h].totalDifficulty <= c.exts[c.tip].totalDifficulty
  }

  /** The invariant of every reachable store. */
  ghost predicate StoreOk(g: Block, rules: Rules, c: Columns) {
    && Tree(g, c.blocks) && c.exts.Keys == c.blocks.Keys
    && g.uncles == []
    && Sane(c.blocks)
    && MarksOk(g, c) && TotalsOk(g, c) && PathsGood(g, rules, c)
    && TipHeaviest(c) && c.exts[c.tip].verified == Some(true)
    && Agrees(c, Path(g, c.blocks, c.tip))
  }

  /** What holds of the store even once the main chain commits a genesis transaction again. */
  ghost predicate HeadersOk(g: Block, c: Columns) {
    && Tree(g, c.blocks) && c.exts.Keys == c.blocks.Keys && Sane(c.blocks)
    && MarksOk(g, c) && TotalsOk(g, c)
    && TipHeaviest(c) && c.exts[c.tip].verified == Some(true)
    && Indexed(c, Path(g, c.blocks, c.tip))
  }

  lemma {:induction false} GoodHeaders(g: Block, rules: Rules, c: Columns)
    requires StoreOk(g, rules, c)
    ensures HeadersOk(g, c)
  {
    hide Agrees, Sane, MarksOk, TotalsOk, PathsGood, Indexed;
    AgreesIndexed(c, Path(g, c.blocks, c.tip));
  }

  // ---------------------------------------------------------------- extending a verified chain

  lemma {:induction false} FollowsFrom(rules: Rules, c: Columns, q: seq<Block>, b: Block)
    requires Agrees(c, q) && GoodPath(rules, q) && q != [] && Checks(rules, c, q, b)
    requires NonContextualOk(b) && b.number == |q| && CollisionFree(Elems(q) + {b}) && NoGenesisReplay(q[0], b)
    ensures Follows(c, q, b)
  {
  }

  lemma {:induction false} NextChainOk(rules: Rules, c: Columns, q: seq<Block>, b: Block)
    requires Agrees(c, q) && GoodPath(rules, q) && q != [] && Checks(rules, c, q, b)
    requires NonContextualOk(b) && b.number == |q| && CollisionFree(Elems(q) + {b}) && NoGenesisReplay(q[0], b)
    ensures ChainOk(q + [b])
  {
    FollowsFrom(rules, c, q, b);
    hide GoodPath, Checks, CollisionFree, Follows, Resolves;
    BlockObeysLedger(c, q, b, |b.txs|);
    PassImpliesNew(c, q, b, rules.uncle);
    ChainStep(q, b);
  }

  lemma {:induction false} PassedStep(rules: Rules, q: seq<Block>, b: Block)
    requires AllPassed(rules, q) && Passed(rules, q, b)
    ensures AllPassed(rules, q + [b])
  {
    var p := q + [b];
    forall i | 0 < i < |p| ensures PassedAt(rules, p, i) {
      if i < |q| {
        assert PassedAt(rules, q, i);
        assert p[..i] == q[..i] && p[i] == q[i];
      } else {
        assert p[..i] == q && p[i] == b;
      }
    }
  }

  lemma {:induction false} CheckedStep(q: seq<Block>, b: Block)
    requires BlocksChecked(q) && NonContextualOk(b) && InputsPresent(b)
    ensures BlocksChecked(q + [b])
  {
  }

  /** A block that passes verification on top of a verified chain makes a longer verified chain. */
  lemma {:induction false} NextGood(rules: Rules, c: Columns, q: seq<Block>, b: Block)
    requires Agrees(c, q) && GoodPath(rules, q) && q != [] && Checks(rules, c, q, b)
    requires NonContextualOk(b) && b.number == |q| && CollisionFree(Elems(q) + {b}) && NoGenesisReplay(q[0], b)
    ensures GoodPath(rules, q + [b])
  {
    NextChainOk(rules, c, q, b);
    assert Passed(rules, q, b);
    PassedStep(rules, q, b);
    CheckedStep(q, b);
  }

  lemma {:induction false} PassedPrefix(rules: Rules, p: seq<Block>, k: nat)
    requires AllPassed(rules, p) && k <= |p|
    ensures AllPassed(rules, p[..k])
  {
    var q := p[..k];
    forall i | 0 < i < |q| ensures PassedAt(rules, q, i) {
      assert PassedAt(rules, p, i);
      assert q[..i] == p[..i] && q[i] == p[i];
    }
  }

  lemma {:induction false} GoodPrefix(rules: Rules, p: seq<Block>, k: nat)
    requires GoodPath(rules, p) && k <= |p|
    ensures GoodPath(rules, p[..k])
  {
    ChainPrefix(p, k);
    PassedPrefix(rules, p, k);
    assert BlocksChecked(p[..k]);
  }

  // ---------------------------------------------------------------- reconciling the main chain

  /** What is known of the new chain before its last blocks are verified. */
  ghost predicate Candidate(c: Columns, np: seq<Block>) {
    && |np| > 1 && Stored(c.blocks, np) && Numbered(np) && Linked(np)
    && CollisionFree(Elems(np))
    && (forall i :: 0 < i < |np| ==> NonContextualOk(np[i]))
  }

  /** The number index, both ways, and the uncle index are those of the chain q, which is stored. */
  predicate Indexed(c: Columns, q: seq<Block>) {
    Stored(c.blocks, q) && c.hashOf == HashIndex(q) && c.numberOf == NumberIndex(q) && c.uncles == UncleMap(q)
  }

  /**
    The columns on which the next block is verified: the chain q below it can be read back, and
    unless q commits a genesis transaction again, every column is the replay of q.
   */
  ghost predicate Prepared(rules: Rules, c: Columns, q: seq<Block>) {
    Indexed(c, q) && (ReplayFree(q) ==> Agrees(c, q) && GoodPath(rules, q))
  }

  lemma {:induction false} AgreesIndexed(c: Columns, q: seq<Block>)
    requires Agrees(c, q)
    ensures Indexed(c, q)
  {
    hide ChainOk, Replay, CellMap, InfoMap, UncleMap, NumberIndex, HashIndex;
  }

  lemma {:induction false} IsPrepared(rules: Rules, c: Columns, q: seq<Block>)
    requires Agrees(c, q) && GoodPath(rules, q)
    ensures Prepared(rules, c, q)
  {
    AgreesIndexed(c, q);
  }

  lemma {:induction false} PreparedFrame(rules: Rules, c: Columns, q: seq<Block>, exts: map<Hash, BlockExt>)
    requires Prepared(rules, c, q)
    ensures Prepared(rules, c.(exts := exts), q)
  {
    hide GoodPath, ChainOk, ReplayFree;
  }

  lemma {:induction false} PrefixCollisionFree(np: seq<Block>, x: nat)
    requires x < |np| && CollisionFree(Elems(np))
    ensures CollisionFree(Elems(np[..x]) + {np[x]})
  {
    assert Elems(np[..x]) + {np[x]} <= Elems(np);
  }

  lemma {:induction false} CandidateNext(rules: Rules, c: Columns, np: seq<Block>, x: nat)
    requires Candidate(c, np) && 0 < x < |np| && NoGenesisReplay(np[0], np[x])
    requires Agrees(c, np[..x]) && GoodPath(rules, np[..x]) && Checks(rules, c, np[..x], np[x])
    ensures GoodPath(rules, np[..x + 1])
  {
    hide Agrees, GoodPath, Checks, CollisionFree, NonContextualOk, NoGenesisReplay;
    PrefixCollisionFree(np, x);
    assert np[..x][0] == np[0];
    NextGood(rules, c, np[..x], np[x]);
    assert np[..x + 1] == np[..x] + [np[x]];
  }

  lemma {:induction false} IndexedNext(c: Columns, np: seq<Block>, x: nat)
    requires Stored(c.blocks, np) && Numbered(np) && x < |np| && Indexed(c, np[..x])
    ensures Indexed(Attach(c, np[x]), np[..x + 1])
  {
    assert np[..x + 1] == np[..x] + [np[x]];
    IndexStep(np[..x], np[x]);
  }

  lemma {:induction false} AgreesNext(c: Columns, np: seq<Block>, x: nat)
    requires Stored(c.blocks, np) && Numbered(np) && 0 < x < |np| && Agrees(c, np[..x]) && ChainOk(np[..x + 1])
    ensures Agrees(Attach(c, np[x]), np[..x + 1])
  {
    hide Agrees, ChainOk, Attach;
    assert np[..x + 1] == np[..x] + [np[x]];
    AttachAgrees(c, np[..x], np[x]);
  }

  /** Verifying and attaching the next block keeps the columns prepared. */
  lemma {:induction false} PreparedNext(rules: Rules, c: Columns, np: seq<Block>, x: nat)
    requires Candidate(c, np) && 0 < x < |np|
    requires Prepared(rules, c, np[..x]) && Checks(rules, c, np[..x], np[x])
    ensures Prepared(rules, Attach(c, np[x]), np[..x + 1])
  {
    hide Agrees, GoodPath, Checks, CollisionFree, NonContextualOk, NoGenesisReplay, ChainOk, Attach, Indexed;
    IndexedNext(c, np, x);
    if ReplayFree(np[..x + 1]) {
      FreePrefix(np, x);
      CandidateNext(rules, c, np, x);
      GoodIsOk(rules, np[..x + 1]);
      AgreesNext(c, np, x);
    }
  }

  lemma {:induction false} FreePrefix(np: seq<Block>, x: nat)
    requires 0 < x < |np| && ReplayFree(np[..x + 1])
    ensures ReplayFree(np[..x]) && NoGenesisReplay(np[0], np[x])
  {
    hide NoGenesisReplay;
    var q := np[..x + 1];
    assert q[x] == np[x] && q[0] == np[0];
    forall i | 0 < i < x ensures NoGenesisReplay(np[..x][0], np[..x][i]) {
      assert q[i] == np[..x][i];
    }
  }

  lemma {:induction false} AttachFrame(c: Columns, b: Block)
    ensures Attach(c, b).blocks == c.blocks && Attach(c, b).exts == c.exts && Attach(c, b).tip == c.tip
    ensures Attach(c, b) == AttachIndex(c, b).(cells := AttachTxs(AttachIndex(c, b).cells, b, |b.txs|))
  {
  }

  /** Index and cell set of one block. */
  method AttachOne(txn: StoreTransaction, b: Block)
    requires b.number > 0
    modifies txn
    ensures txn.cols == Attach(old(txn.cols), b)
    ensures txn.cols.blocks == old(txn.cols).blocks && txn.cols.exts == old(txn.cols).exts
    ensures txn.cols.tip == old(txn.cols).tip
  {
    hide AttachIndex;
    txn.AttachBlock(b);
    AttachBlockCell(txn, b);
    AttachFrame(old(txn.cols), b);
  }

  datatype Verdict = Disordered | Bad | Good

  /** The checks on one dirty block, against the columns of the chain below it. */
  method VerifyBlock(rules: Rules, c: Columns, ghost q: seq<Block>, b: Block) returns (r: Verdict)
    requires Indexed(c, q) && Numbered(q) && Linked(q) && q != [] && b.number == |q| && NonContextualOk(b)
    ensures r == Good <==> Checks(rules, c, q, b)
    ensures r == Disordered <==> !Ordered(b)
  {
    var resolved := ResolveBlock(c, b);
    if resolved == OutOfOrder { return Disordered; }
    if resolved == Unresolved { return Bad; }
    var uncles := VerifyUncles(c, b, rules.uncle);
    if uncles.Some? { return Bad; }
    var commit := VerifyTwoPhase(c, q, b, TX_PROPOSAL_WINDOW, rules.shortId);
    if commit.Some? { return Bad; }
    return if InputsPresent(b) && rules.contextual(c, b) then Good else Bad;
  }

  /** The extensions once the first n dirty blocks were found valid. */
  function MarkValid(exts: map<Hash, BlockExt>, np: seq<Block>, dirty: seq<BlockExt>, n: nat): map<Hash, BlockExt>
    requires n <= |dirty| <= |np|
  {
    if n == 0 then exts else
    MarkValid(exts, np, dirty, n - 1)[np[|np| - |dirty| + n - 1].hash := dirty[n - 1].(verified := Some(true))]
  }

  /** The first loop of `reconcile_main_chain`: blocks already marked are attached without verification. */
  method AttachVerified(txn: StoreTransaction, fork: ForkChanges, ghost np: seq<Block>, ghost k: nat)
    requires 0 < k < |np| && Agrees(txn.cols, np[..k]) && Stored(txn.cols.blocks, np) && Numbered(np)
    requires fork.attached == np[k..] && 1 <= |fork.dirty| <= |fork.attached|
    requires ChainOk(np[..|np| - |fork.dirty|])
    modifies txn
    ensures Agrees(txn.cols, np[..|np| - |fork.dirty|])
    ensures txn.cols.blocks == old(txn.cols).blocks && txn.cols.exts == old(txn.cols).exts
    ensures txn.cols.tip == old(txn.cols).tip
  {
    hide Agrees, ChainOk, Stored, Attach;
    for i := 0 to fork.VerifiedLen()
      invariant Agrees(txn.cols, np[..k + i])
      invariant txn.cols.blocks == old(txn.cols).blocks && txn.cols.exts == old(txn.cols).exts
      invariant txn.cols.tip == old(txn.cols).tip
    {
      ghost var from := |np| - |fork.dirty|;
      ChainPrefix(np[..from], k + i + 1);
      assert np[..from][..k + i + 1] == np[..k + i + 1];
      AgreesNext(txn.cols, np, k + i);
      AttachOne(txn, fork.attached[i]);
    }
  }

  /** One dirty block: verify it, then attach and mark it; a bad one is marked, a disordered one is not. */
  method VerifyAndAttach(rules: Rules, txn: StoreTransaction, ghost np: seq<Block>, ghost x: nat, b: Block,
                         ext: BlockExt)
      returns (ok: bool)
    requires 0 < x < |np| && b == np[x] && Candidate(txn.cols, np)
    requires Prepared(rules, txn.cols, np[..x])
    modifies txn
    ensures txn.cols.blocks == old(txn.cols).blocks && txn.cols.tip == old(txn.cols).tip
    ensures ok ==> Prepared(rules, txn.cols, np[..x + 1])
    ensures ok ==> txn.cols.exts == old(txn.cols).exts[b.hash := ext.(verified := Some(true))]
    ensures !ok ==> !Checks(rules, old(txn.cols), np[..x], b)
    ensures !ok && !Ordered(b) ==> txn.cols == old(txn.cols)
    ensures !ok && Ordered(b) ==>
              txn.cols == old(txn.cols).(exts := old(txn.cols).exts[b.hash := ext.(verified := Some(false))])
  {
    hide Attach, GoodPath, Agrees, Checks, ReplayFree, CollisionFree, NonContextualOk;
    LinkedPrefix(np, x);
    var verdict := VerifyBlock(rules, txn.cols, np[..x], b);
    ok := verdict == Good;
    if ok {
      PreparedNext(rules, txn.cols, np, x);
      AttachOne(txn, b);
      PreparedFrame(rules, txn.cols, np[..x + 1], txn.cols.exts[b.hash := ext.(verified := Some(true))]);
      txn.InsertBlockExt(b.hash, ext.(verified := Some(true)));
    } else if verdict == Bad {
      txn.InsertBlockExt(b.hash, ext.(verified := Some(false)));
    }
  }

  lemma {:induction false} CandidateFrame(c: Columns, d: Columns, np: seq<Block>)
    requires Candidate(c, np) && d.blocks == c.blocks
    ensures Candidate(d, np)
  {
  }

  /** From height `from` on, some block fails its checks on the columns prepared for it. */
  ghost predicate Fails(rules: Rules, np: seq<Block>, from: nat) {
    exists x, d :: from <= x < |np| && FailsAt(rules, np, x, d)
  }

  ghost predicate FailsAt(rules: Rules, np: seq<Block>, x: nat, d: Columns)
    requires x < |np|
  {
    Prepared(rules, d, np[..x]) && !Checks(rules, d, np[..x], np[x])
  }

  /** The second loop: verify the dirty blocks in order; after a failure mark the rest as invalid. */
  method VerifyDirty(rules: Rules, txn: StoreTransaction, fork: ForkChanges, ghost np: seq<Block>,
                     ghost k: nat) returns (ok: bool)
    requires 0 < k < |np| && Candidate(txn.cols, np)
    requires fork.attached == np[k..] && 1 <= |fork.dirty| <= |fork.attached|
    requires Prepared(rules, txn.cols, np[..|np| - |fork.dirty|])
    modifies txn
    ensures txn.cols.blocks == old(txn.cols).blocks && txn.cols.tip == old(txn.cols).tip
    ensures ok ==> Prepared(rules, txn.cols, np)
    ensures ok ==> txn.cols.exts == MarkValid(old(txn.cols).exts, np, fork.dirty, |fork.dirty|)
    ensures !ok ==> Fails(rules, np, |np| - |fork.dirty|)
  {
    hide Prepared, Candidate, Checks;
    var verified := fork.VerifiedLen();
    ghost var c, from := txn.cols, |np| - |fork.dirty|;
    ok := true;
    for i := 0 to |fork.dirty|
      invariant txn.cols.blocks == c.blocks && txn.cols.tip == c.tip
      invariant ok ==> Prepared(rules, txn.cols, np[..from + i])
      invariant ok ==> txn.cols.exts == MarkValid(c.exts, np, fork.dirty, i)
      invariant !ok ==> Fails(rules, np, from)
    {
      var b, ext := fork.attached[verified + i], fork.dirty[i];
      if ok {
        CandidateFrame(c, txn.cols, np);
        ghost var d := txn.cols;
        ok := VerifyAndAttach(rules, txn, np, from + i, b, ext);
        assert !ok ==> FailsAt(rules, np, from + i, d);
      } else {
        txn.InsertBlockExt(b.hash, ext.(verified := Some(false)));
      }
    }
    assert np[..from + |fork.dirty|] == np;
  }

  lemma {:induction false} LinkedPrefix(p: seq<Block>, k: nat)
    requires Linked(p) && k <= |p|
    ensures Linked(p[..k])
  {
    forall i | 0 < i < k ensures LinkAt(p[..k], i) {
      assert LinkAt(p, i);
    }
  }

  // ---------------------------------------------------------------- from the store to the fork

  /** The chain that the new block would make. */
  function NewPath(g: Block, blocks: map<Hash, Block>, b: Block): seq<Block>
    requires Tree(g, blocks) && b.parent in blocks
  {
    Path(g, blocks, b.parent) + [b]
  }

  /** The block is new, and its parent is stored one height below: the caller has verified the header. */
  predicate Attachable(blocks: map<Hash, Block>, b: Block) {
    b.hash !in blocks && b.parent in blocks && b.number == blocks[b.parent].number + 1
  }

  lemma {:induction false} NewPathShape(g: Block, blocks: map<Hash, Block>, b: Block)
    requires Tree(g, blocks) && Attachable(blocks, b)
    ensures Tree(g, blocks[b.hash := b])
    ensures NewPath(g, blocks, b) == Path(g, blocks[b.hash := b], b.hash)
    ensures Stored(blocks[b.hash := b], NewPath(g, blocks, b))
    ensures Numbered(NewPath(g, blocks, b)) && Linked(NewPath(g, blocks, b))
  {
    TreeGrows(g, blocks, b);
    PathStable(g, blocks, b, b.parent);
    PathShape(g, blocks[b.hash := b], b.hash);
  }

  lemma {:induction false} ReadableFork(g: Block, rules: Rules, c: Columns, b: Block)
    requires StoreOk(g, rules, c) && Attachable(c.blocks, b)
    ensures Readable(c, Path(g, c.blocks, c.tip), NewPath(g, c.blocks, b))
  {
    hide PathsGood, TotalsOk, MarksOk, Sane, TipHeaviest, ChainOk, Replay, CellMap, InfoMap;
    NewPathShape(g, c.blocks, b);
    var q := Path(g, c.blocks, b.parent);
    PathShape(g, c.blocks, b.parent);
    assert forall i :: 0 <= i < |q| ==> NewPath(g, c.blocks, b)[i] == q[i];
  }

  lemma {:induction false} MeetsFork(g: Block, c: Columns, b: Block)
    requires Tree(g, c.blocks) && c.tip in c.blocks && Attachable(c.blocks, b)
    ensures Meets(c, Path(g, c.blocks, c.tip), NewPath(g, c.blocks, b))
  {
    var m, np, q := Path(g, c.blocks, c.tip), NewPath(g, c.blocks, b), Path(g, c.blocks, b.parent);
    NewPathShape(g, c.blocks, b);
    PathShape(g, c.blocks, c.tip);
    forall i | 0 <= i < |m| && i < |np| ensures MeetAt(m, np, i) {
      if i < |q| {
        assert np[i] == q[i];
        if m[i] == q[i] {
          PathsMeet(g, c.blocks, c.tip, b.parent, i);
          assert q[..i + 1] == np[..i + 1];
        }
      }
    }
  }

  lemma {:induction false} MarkedFork(g: Block, c: Columns, b: Block)
    requires Tree(g, c.blocks) && c.exts.Keys == c.blocks.Keys && MarksOk(g, c) && Attachable(c.blocks, b)
    ensures Marked(c, NewPath(g, c.blocks, b))
  {
    var np, q := NewPath(g, c.blocks, b), Path(g, c.blocks, b.parent);
    PathShape(g, c.blocks, b.parent);
    forall i | 0 <= i < |q|
      ensures np[i] == q[i] && q[i].hash in c.exts && c.blocks[q[i].hash] == q[i] && q[i].number == i
    {
    }
    forall i | 0 < i < |q| ensures MarkAt(c, np, i) {
      assert LinkAt(q, i);
      assert HasParent(c.blocks, q[i].hash) && MarkInherited(c, q[i].hash);
    }
  }

  /** The hypothesis on a block that is handed in: it brings no hash collision. */
  ghost predicate SaneBlock(blocks: map<Hash, Block>, b: Block) {
    CollisionFree(blocks.Values + {b})
  }

  lemma {:induction false} SaneGrows(blocks: map<Hash, Block>, b: Block)
    requires Sane(blocks) && SaneBlock(blocks, b) && NonContextualOk(b) && b.hash !in blocks
    ensures Sane(blocks[b.hash := b])
  {
    assert blocks[b.hash := b].Values <= blocks.Values + {b};
  }

  lemma {:induction false} IsCandidate(g: Block, c: Columns, d: Columns, b: Block)
    requires Tree(g, c.blocks) && Attachable(c.blocks, b) && NonContextualOk(b)
    requires Sane(c.blocks) && SaneBlock(c.blocks, b) && d.blocks == c.blocks[b.hash := b]
    ensures Candidate(d, NewPath(g, c.blocks, b))
  {
    hide NonContextualOk, CollisionFree;
    var np := NewPath(g, c.blocks, b);
    NewPathShape(g, c.blocks, b);
    SaneGrows(c.blocks, b);
    assert Elems(np) <= d.blocks.Values;
    assert CollisionFree(Elems(np)) by { FewerBlocks(Elems(np), d.blocks.Values); }
    forall i | 0 < i < |np| ensures NonContextualOk(np[i]) {
      assert np[i].number > 0;
    }
  }

  lemma {:induction false} FewerBlocks(bs: set<Block>, cs: set<Block>)
    requires bs <= cs && CollisionFree(cs)
    ensures CollisionFree(bs)
  {
  }

  /** On a stored chain every ancestor of a marked block is marked. */
  lemma {:induction false} PathMarks(g: Block, c: Columns, h: Hash, i: nat)
    requires Tree(g, c.blocks) && c.exts.Keys == c.blocks.Keys && MarksOk(g, c)
    requires h in c.blocks && c.exts[h].verified.Some? && i <= c.blocks[h].number
    ensures Path(g, c.blocks, h)[i].hash in c.exts && c.exts[Path(g, c.blocks, h)[i].hash].verified.Some?
    decreases c.blocks[h].number
  {
    if i < c.blocks[h].number {
      assert HasParent(c.blocks, h) && MarkInherited(c, h);
      PathMarks(g, c, c.blocks[h].parent, i);
    }
  }

  /** Everything below the dirty blocks was verified before, against its own ancestors. */
  lemma {:induction false} VerifiedPrefixGood(g: Block, rules: Rules, c: Columns, b: Block, k: nat, from: nat)
    requires StoreOk(g, rules, c) && Attachable(c.blocks, b)
    requires ForksAt(Path(g, c.blocks, c.tip), NewPath(g, c.blocks, b), k) && k <= from < |NewPath(g, c.blocks, b)|
    requires AllVerified(c, NewPath(g, c.blocks, b), k, from)
    ensures GoodPath(rules, NewPath(g, c.blocks, b)[..from])
  {
    hide GoodPath, Agrees, TotalsOk, MarksOk, Sane;
    var m, np, q := Path(g, c.blocks, c.tip), NewPath(g, c.blocks, b), Path(g, c.blocks, b.parent);
    if from == k {
      GoodPrefix(rules, m, k);
    } else {
      var x := from - 1;
      assert np[x] == q[x];
      PathPrefix(g, c.blocks, b.parent, x);
      assert q[..x + 1] == np[..from];
    }
  }

  /** All blocks of the new chain below the dirty ones carry a mark. */
  lemma {:induction false} BelowDirtyMarked(g: Block, c: Columns, b: Block, k: nat, from: nat)
    requires Tree(g, c.blocks) && c.exts.Keys == c.blocks.Keys && MarksOk(g, c) && Attachable(c.blocks, b)
    requires c.tip in c.blocks && c.exts[c.tip].verified.Some?
    requires ForksAt(Path(g, c.blocks, c.tip), NewPath(g, c.blocks, b), k) && k <= from < |NewPath(g, c.blocks, b)|
    requires AllVerified(c, NewPath(g, c.blocks, b), k, from)
    ensures NewPath(g, c.blocks, b)[from - 1].hash in c.exts
    ensures c.exts[NewPath(g, c.blocks, b)[from - 1].hash].verified.Some?
  {
    var m, np := Path(g, c.blocks, c.tip), NewPath(g, c.blocks, b);
    if from == k {
      assert np[..k][k - 1] == m[..k][k - 1];
      PathMarks(g, c, c.tip, k - 1);
    }
  }

  // ---------------------------------------------------------------- the marks that are written

  predicate HashBetween(np: seq<Block>, from: nat, to: nat, h: Hash)
    requires from <= to <= |np|
  {
    exists x :: from <= x < to && np[x].hash == h
  }

  /** How the extensions change: only marks, only to positive ones, only on blocks of the new chain. */
  ghost predicate OnlyMarks(exts: map<Hash, BlockExt>, exts': map<Hash, BlockExt>, np: seq<Block>, from: nat, to: nat)
    requires from <= to <= |np|
  {
    && exts.Keys <= exts'.Keys
    && (forall h :: h in exts ==> exts'[h].(verified := None) == exts[h].(verified := None))
    && (forall h :: h in exts && exts'[h].verified != exts[h].verified ==>
          exts'[h].verified == Some(true) && HashBetween(np, from, to, h))
    && (forall x :: from <= x < to ==> np[x].hash in exts' && exts'[np[x].hash].verified == Some(true))
  }

  lemma {:induction false} OneMark(exts: map<Hash, BlockExt>, exts': map<Hash, BlockExt>, np: seq<Block>, from: nat,
                                   x: nat, e: BlockExt)
    requires from <= x < |np| && OnlyMarks(exts, exts', np, from, x)
    requires np[x].hash in exts ==> exts[np[x].hash].(verified := None) == e.(verified := None)
    ensures OnlyMarks(exts, exts'[np[x].hash := e.(verified := Some(true))], np, from, x + 1)
  {
    forall h | HashBetween(np, from, x, h) ensures HashBetween(np, from, x + 1, h) {
    }
    assert HashBetween(np, from, x + 1, np[x].hash);
  }

  lemma {:induction false} MarksWritten(c: Columns, np: seq<Block>, ext: BlockExt, dirty: seq<BlockExt>, n: nat)
    requires LinesUp(c, np, ext, dirty) && n <= |dirty| && np[|np| - 1].hash !in c.exts
    ensures OnlyMarks(c.exts, MarkValid(c.exts, np, dirty, n), np, |np| - |dirty|, |np| - |dirty| + n)
    ensures n < |dirty| ==> MarkValid(c.exts, np, dirty, n).Keys == c.exts.Keys
    ensures n == |dirty| ==> MarkValid(c.exts, np, dirty, n).Keys == c.exts.Keys + {np[|np| - 1].hash}
    ensures n == |dirty| ==> MarkValid(c.exts, np, dirty, n)[np[|np| - 1].hash] == ext.(verified := Some(true))
  {
    hide OnlyMarks;
    if n == 0 {
      NoMarks(c.exts, np, |np| - |dirty|);
    } else {
      MarksWritten(c, np, ext, dirty, n - 1);
      OneMark(c.exts, MarkValid(c.exts, np, dirty, n - 1), np, |np| - |dirty|, |np| - |dirty| + n - 1, dirty[n - 1]);
    }
  }

  lemma {:induction false} NoMarks(exts: map<Hash, BlockExt>, np: seq<Block>, from: nat)
    requires from <= |np|
    ensures OnlyMarks(exts, exts, np, from, from)
  {
  }

  // ---------------------------------------------------------------- the store after a new best block

  /** The columns d come from c by storing b and writing marks on the blocks of the new chain. */
  ghost predicate Reorganised(g: Block, c: Columns, d: Columns, b: Block, ext: BlockExt, from: nat)
    requires Tree(g, c.blocks) && Attachable(c.blocks, b)
  {
    var np := NewPath(g, c.blocks, b);
    && 0 < from < |np|
    && d.blocks == c.blocks[b.hash := b]
    && d.exts.Keys == c.exts.Keys + {b.hash} && c.exts.Keys == c.blocks.Keys
    && OnlyMarks(c.exts, d.exts, np, from, |np|)
    && d.exts[b.hash] == ext.(verified := Some(true))
    && np[from - 1].hash in c.exts && c.exts[np[from - 1].hash].verified.Some?
  }

  /** The extension that `insert_block` computes for the new block. */
  predicate FreshExt(c: Columns, b: Block, ext: BlockExt)
    requires b.parent in c.exts
  {
    && ext.totalDifficulty == c.exts[b.parent].totalDifficulty + b.difficulty
    && ext.totalUncles == c.exts[b.parent].totalUncles + |b.uncles|
  }

  lemma {:induction false} NoNegativeMark(exts: map<Hash, BlockExt>, exts': map<Hash, BlockExt>, np: seq<Block>,
                                          from: nat, h: Hash)
    requires from <= |np| && OnlyMarks(exts, exts', np, from, |np|) && h in exts
    requires exts[h].verified != Some(false)
    ensures exts'[h].verified != Some(false)
    ensures exts[h].verified.Some? ==> exts'[h].verified == exts[h].verified
    ensures exts[h].verified.Some? ==> exts'[h].verified.Some?
  {
    if exts[h].verified.Some? {
      var v := exts[h].verified;
      assert v.value == true || v == Some(false);
    }
  }

  lemma {:induction false} ExtKept(exts: map<Hash, BlockExt>, exts': map<Hash, BlockExt>, np: seq<Block>, from: nat,
                                   h: Hash)
    requires from <= |np| && OnlyMarks(exts, exts', np, from, |np|) && h in exts
    ensures h in exts'
    ensures exts'[h].totalDifficulty == exts[h].totalDifficulty && exts'[h].totalUncles == exts[h].totalUncles
    ensures exts'[h].verified == exts[h].verified || exists x :: from <= x < |np| && np[x].hash == h
  {
    assert exts'[h].(verified := None) == exts[h].(verified := None);
  }

  lemma {:induction false} ParentMarked(g: Block, c: Columns, d: Columns, b: Block, ext: BlockExt, from: nat, x: nat)
    requires Tree(g, c.blocks) && Attachable(c.blocks, b) && Reorganised(g, c, d, b, ext, from)
    requires c.exts.Keys == c.blocks.Keys && MarksOk(g, c)
    requires from <= x < |NewPath(g, c.blocks, b)|
    ensures NewPath(g, c.blocks, b)[x].parent in d.exts && d.exts[NewPath(g, c.blocks, b)[x].parent].verified.Some?
  {
    var np := NewPath(g, c.blocks, b);
    NewPathShape(g, c.blocks, b);
    assert LinkAt(np, x);
    if x == from {
      NoNegativeMark(c.exts, d.exts, np, from, np[from - 1].hash);
    }
  }

  lemma {:induction false} MarksAfter(g: Block, c: Columns, d: Columns, b: Block, ext: BlockExt, from: nat)
    requires Tree(g, c.blocks) && Attachable(c.blocks, b) && Reorganised(g, c, d, b, ext, from)
    requires MarksOk(g, c)
    ensures Tree(g, d.blocks) && d.exts.Keys == d.blocks.Keys && MarksOk(g, d)
  {
    hide OnlyMarks, Stored, Numbered, Linked;
    var np := NewPath(g, c.blocks, b);
    NewPathShape(g, c.blocks, b);
    forall h | h in d.exts ensures d.exts[h].verified != Some(false) {
      if h != b.hash { NoNegativeMark(c.exts, d.exts, np, from, h); }
    }
    NoNegativeMark(c.exts, d.exts, np, from, g.hash);
    forall h | h in d.exts && d.blocks[h].number > 0 ensures HasParent(d.blocks, h) && MarkInherited(d, h) {
      if d.exts[h].verified.Some? { MarkedParent(g, c, d, b, ext, from, h); }
    }
  }

  lemma {:induction false} MarkedParent(g: Block, c: Columns, d: Columns, b: Block, ext: BlockExt, from: nat, h: Hash)
    requires Tree(g, c.blocks) && Attachable(c.blocks, b) && Reorganised(g, c, d, b, ext, from)
    requires MarksOk(g, c) && h in d.exts && d.exts[h].verified.Some? && d.blocks[h].number > 0
    ensures d.blocks[h].parent in d.exts && d.exts[d.blocks[h].parent].verified.Some?
  {
    hide OnlyMarks, Numbered, Linked;
    var np := NewPath(g, c.blocks, b);
    NewPathShape(g, c.blocks, b);
    if h == b.hash {
      ParentMarked(g, c, d, b, ext, from, |np| - 1);
    } else if d.exts[h].verified == c.exts[h].verified {
      assert HasParent(c.blocks, h) && MarkInherited(c, h);
      NoNegativeMark(c.exts, d.exts, np, from, c.blocks[h].parent);
    } else {
      ExtKept(c.exts, d.exts, np, from, h);
      var x :| from <= x < |np| && np[x].hash == h;
      ParentMarked(g, c, d, b, ext, from, x);
    }
  }

  lemma {:induction false} TotalsAfter(g: Block, c: Columns, d: Columns, b: Block, ext: BlockExt, from: nat)
    requires Tree(g, c.blocks) && Attachable(c.blocks, b) && Reorganised(g, c, d, b, ext, from)
    requires Tree(g, d.blocks) && d.exts.Keys == d.blocks.Keys
    requires TotalsOk(g, c) && FreshExt(c, b, ext)
    ensures TotalsOk(g, d)
  {
    hide OnlyMarks, Path, Numbered, Linked;
    ExtKept(c.exts, d.exts, NewPath(g, c.blocks, b), from, g.hash);
    forall h | h in d.exts && d.blocks[h].number > 0 ensures HasParent(d.blocks, h) && TotalAdds(d, h) {
      if h != b.hash {
        assert HasParent(c.blocks, h) && TotalAdds(c, h);
        ExtKept(c.exts, d.exts, NewPath(g, c.blocks, b), from, h);
      }
      ExtKept(c.exts, d.exts, NewPath(g, c.blocks, b), from, d.blocks[h].parent);
    }
  }

  lemma {:induction false} OnNewPath(g: Block, rules: Rules, blocks: map<Hash, Block>, b: Block, x: nat)
    requires Tree(g, blocks) && Attachable(blocks, b) && Tree(g, blocks[b.hash := b])
    requires GoodPath(rules, NewPath(g, blocks, b)) && x < |NewPath(g, blocks, b)|
    ensures NewPath(g, blocks, b)[x].hash in blocks[b.hash := b]
    ensures GoodPath(rules, Path(g, blocks[b.hash := b], NewPath(g, blocks, b)[x].hash))
  {
    hide GoodPath, Stored, Numbered, Linked;
    NewPathShape(g, blocks, b);
    PathPrefix(g, blocks[b.hash := b], b.hash, x);
    GoodPrefix(rules, NewPath(g, blocks, b), x + 1);
  }

  lemma {:induction false} PathAfter(g: Block, rules: Rules, c: Columns, d: Columns, b: Block, ext: BlockExt,
                                     from: nat, h: Hash)
    requires Tree(g, c.blocks) && Attachable(c.blocks, b) && Reorganised(g, c, d, b, ext, from) && Tree(g, d.blocks)
    requires PathsGood(g, rules, c) && GoodPath(rules, NewPath(g, c.blocks, b))
    requires h in d.exts && d.exts[h].verified == Some(true)
    ensures GoodPath(rules, Path(g, d.blocks, h))
  {
    hide GoodPath, OnlyMarks;
    var np := NewPath(g, c.blocks, b);
    if h == b.hash {
      OnNewPath(g, rules, c.blocks, b, |np| - 1);
    } else {
      ExtKept(c.exts, d.exts, np, from, h);
      if c.exts[h].verified == Some(true) {
        PathStable(g, c.blocks, b, h);
      } else {
        var x :| from <= x < |np| && np[x].hash == h;
        OnNewPath(g, rules, c.blocks, b, x);
      }
    }
  }

  /** A successful reorganisation leads from one good store to another. */
  lemma {:induction false} StoreAfter(g: Block, rules: Rules, c: Columns, d: Columns, b: Block, ext: BlockExt,
                                      from: nat)
    requires StoreOk(g, rules, c) && Attachable(c.blocks, b) && NonContextualOk(b) && SaneBlock(c.blocks, b)
    requires Reorganised(g, c, d, b, ext, from) && FreshExt(c, b, ext)
    requires Agrees(d, NewPath(g, c.blocks, b)) && GoodPath(rules, NewPath(g, c.blocks, b))
    requires ext.totalDifficulty > c.exts[c.tip].totalDifficulty && d.tip == b.hash
    ensures StoreOk(g, rules, d)
  {
    hide GoodPath, Agrees, Sane, SaneBlock, NonContextualOk, TotalsOk, MarksOk, OnlyMarks, Stored, Numbered, Linked,
         Indexed;
    NewPathShape(g, c.blocks, b);
    AgreesIndexed(d, NewPath(g, c.blocks, b));
    HeadersAfter(g, rules, c, d, b, ext, from);
    forall h | h in d.exts && d.exts[h].verified == Some(true) ensures GoodPath(rules, Path(g, d.blocks, h)) {
      PathAfter(g, rules, c, d, b, ext, from, h);
    }
  }

  /** Marks, totals and the indices by number do not depend on what the blocks commit. */
  lemma {:induction false} HeadersAfter(g: Block, rules: Rules, c: Columns, d: Columns, b: Block, ext: BlockExt,
                                        from: nat)
    requires StoreOk(g, rules, c) && Attachable(c.blocks, b) && NonContextualOk(b) && SaneBlock(c.blocks, b)
    requires Reorganised(g, c, d, b, ext, from) && FreshExt(c, b, ext)
    requires Indexed(d, NewPath(g, c.blocks, b))
    requires ext.totalDifficulty > c.exts[c.tip].totalDifficulty && d.tip == b.hash
    ensures HeadersOk(g, d)
  {
    hide Agrees, Sane, SaneBlock, NonContextualOk, TotalsOk, MarksOk, OnlyMarks, Stored, Numbered, Linked, Indexed,
         PathsGood;
    NewPathShape(g, c.blocks, b);
    MarksAfter(g, c, d, b, ext, from);
    TotalsAfter(g, c, d, b, ext, from);
    SaneGrows(c.blocks, b);
    forall h | h in d.exts ensures d.exts[h].totalDifficulty <= d.exts[d.tip].totalDifficulty {
      if h != b.hash { ExtKept(c.exts, d.exts, NewPath(g, c.blocks, b), from, h); }
    }
  }

  lemma {:induction false} AsideMarks(g: Block, c: Columns, d: Columns, b: Block, ext: BlockExt)
    requires Tree(g, c.blocks) && c.exts.Keys == c.blocks.Keys && MarksOk(g, c) && TotalsOk(g, c)
    requires Attachable(c.blocks, b) && FreshExt(c, b, ext) && ext.verified == None
    requires d.blocks == c.blocks[b.hash := b] && d.exts == c.exts[b.hash := ext]
    ensures Tree(g, d.blocks) && d.exts.Keys == d.blocks.Keys && MarksOk(g, d) && TotalsOk(g, d)
  {
    TreeGrows(g, c.blocks, b);
    forall h | h in d.exts && d.blocks[h].number > 0
      ensures HasParent(d.blocks, h) && MarkInherited(d, h) && TotalAdds(d, h)
    {
      if h != b.hash { assert HasParent(c.blocks, h) && MarkInherited(c, h) && TotalAdds(c, h); }
    }
  }

  lemma {:induction false} AsidePaths(g: Block, rules: Rules, c: Columns, d: Columns, b: Block, ext: BlockExt)
    requires Tree(g, c.blocks) && c.exts.Keys == c.blocks.Keys && PathsGood(g, rules, c)
    requires Attachable(c.blocks, b) && ext.verified == None
    requires d.blocks == c.blocks[b.hash := b] && d.exts == c.exts[b.hash := ext] && Tree(g, d.blocks)
    ensures PathsGood(g, rules, d)
  {
    hide GoodPath;
    forall h | h in d.exts && d.exts[h].verified == Some(true) ensures GoodPath(rules, Path(g, d.blocks, h)) {
      PathStable(g, c.blocks, b, h);
    }
  }

  lemma {:induction false} AgreesFrame(c: Columns, d: Columns, p: seq<Block>, b: Block)
    requires Agrees(c, p) && b.hash !in c.blocks && d.blocks == c.blocks[b.hash := b]
    requires d.hashOf == c.hashOf && d.numberOf == c.numberOf && d.txInfo == c.txInfo && d.uncles == c.uncles
    requires d.cells == c.cells
    ensures Agrees(d, p)
  {
    hide ChainOk, Replay, CellMap, InfoMap, UncleMap, NumberIndex, HashIndex;
  }

  /** A block that does not become the tip is stored without a mark. */
  lemma {:induction false} StoreAside(g: Block, rules: Rules, c: Columns, d: Columns, b: Block, ext: BlockExt)
    requires StoreOk(g, rules, c) && Attachable(c.blocks, b) && NonContextualOk(b) && SaneBlock(c.blocks, b)
    requires FreshExt(c, b, ext) && ext.verified == None && ext.totalDifficulty <= c.exts[c.tip].totalDifficulty
    requires d == c.(blocks := c.blocks[b.hash := b], exts := c.exts[b.hash := ext])
    ensures StoreOk(g, rules, d)
  {
    hide GoodPath, Agrees, Sane, SaneBlock, NonContextualOk, MarksOk, TotalsOk, PathsGood;
    AsideMarks(g, c, d, b, ext);
    AsidePaths(g, rules, c, d, b, ext);
    SaneGrows(c.blocks, b);
    PathStable(g, c.blocks, b, c.tip);
    AgreesFrame(c, d, Path(g, c.blocks, c.tip), b);
  }

  // ---------------------------------------------------------------- the first store

  /** What the source's genesis verifier and hashing give for the genesis block. */
  ghost predicate GenesisOk(g: Block) {
    && g.number == 0 && g.uncles == []
    && (forall i, j :: 0 <= i < j < |g.txs| ==> g.txs[i].hash != g.txs[j].hash)
    && CollisionFree({g})
  }

  function InitCells(g: Block, k: nat): map<Hash, Meta>
    requires k <= |g.txs|
  {
    if k == 0 then map[] else InitCells(g, k - 1)[g.txs[k - 1].hash := NewMeta(g, g.txs[k - 1], false)]
  }

  lemma {:induction false} GenesisHashNew(g: Block, k: nat)
    requires GenesisOk(g) && k < |g.txs|
    ensures g.txs[k].hash !in HashesUpTo(g, k) && g.txs[k].hash != ZERO_HASH
  {
    assert g in {g};
  }

  lemma {:induction false} GenesisLedger(g: Block, k: nat)
    requires GenesisOk(g) && k <= |g.txs|
    ensures TxsOk(EMPTY, g, k) && ApplyTxs(EMPTY, g, k).spent == {}
    ensures ApplyTxs(EMPTY, g, k).txs.Keys == HashesUpTo(g, k)
  {
    if k > 0 {
      GenesisLedger(g, k - 1);
      GenesisHashNew(g, k - 1);
      assert Spends(RecAt(g, k - 1)) == [];
      assert HashesUpTo(g, k) == HashesUpTo(g, k - 1) + {g.txs[k - 1].hash};
    }
  }

  lemma {:induction false} GenesisEntry(g: Block, k: nat, s: State)
    requires k < |g.txs| && g.number == 0 && s.spent == {}
    ensures MetaOf(State(s.txs[g.txs[k].hash := RecAt(g, k)], {}), g.txs[k].hash) == NewMeta(g, g.txs[k], false)
    ensures ApplyTx(s, RecAt(g, k)) == State(s.txs[g.txs[k].hash := RecAt(g, k)], {})
  {
    assert Spends(RecAt(g, k)) == [];
    assert Elems(Spends(RecAt(g, k))) == {};
    assert MetaOf(ApplyTx(s, RecAt(g, k)), g.txs[k].hash).dead == NewMeta(g, g.txs[k], false).dead;
  }

  lemma {:induction false} GenesisStep(g: Block, k: nat, s: State)
    requires k < |g.txs| && g.number == 0 && s.spent == {} && g.txs[k].hash !in s.txs
    ensures CellMap(s)[g.txs[k].hash := NewMeta(g, g.txs[k], false)] == CellMap(ApplyTx(s, RecAt(g, k)))
  {
    GenesisEntry(g, k, s);
    CreateStep(s, RecAt(g, k));
  }

  /** The first cell set is that of the genesis block replayed; the inputs of genesis spend nothing. */
  lemma {:induction false} InitIsReplay(g: Block, k: nat)
    requires GenesisOk(g) && k <= |g.txs|
    ensures InitCells(g, k) == CellMap(ApplyTxs(EMPTY, g, k))
  {
    if k == 0 {
      assert CellMap(EMPTY) == map[];
    } else {
      assert g.number == 0;
      hide GenesisOk, NewMeta, CellMap, TxsOk, ApplyTx;
      InitIsReplay(g, k - 1);
      GenesisFresh(g, k - 1);
      GenesisStep(g, k - 1, ApplyTxs(EMPTY, g, k - 1));
    }
  }

  lemma {:induction false} GenesisFresh(g: Block, k: nat)
    requires GenesisOk(g) && k < |g.txs|
    ensures ApplyTxs(EMPTY, g, k).spent == {} && g.txs[k].hash !in ApplyTxs(EMPTY, g, k).txs
  {
    hide GenesisOk, TxsOk;
    GenesisLedger(g, k);
    GenesisHashNew(g, k);
  }

  /** The columns that `ChainDB::init` writes. */
  function InitColumns(g: Block): Columns {
    AttachIndex(Columns(map[g.hash := g], map[g.hash := BlockExt(g.difficulty, 0, Some(true))],
                        map[], map[], map[], map[], InitCells(g, |g.txs|), g.hash), g)
  }

  lemma {:induction false} InitTree(g: Block, c: Columns)
    requires g.number == 0 && c.blocks == map[g.hash := g] && c.tip == g.hash
    requires c.exts == map[g.hash := BlockExt(g.difficulty, 0, Some(true))]
    ensures Tree(g, c.blocks) && c.exts.Keys == c.blocks.Keys && MarksOk(g, c) && TotalsOk(g, c) && TipHeaviest(c)
    ensures Path(g, c.blocks, g.hash) == [g]
  {
  }

  lemma {:induction false} InitSane(g: Block)
    requires GenesisOk(g)
    ensures Sane(map[g.hash := g])
  {
    FewerBlocks(map[g.hash := g].Values, {g});
  }

  /** The store that `ChainDB::init` writes is good. */
  lemma {:induction false} InitGood(g: Block, rules: Rules)
    requires GenesisOk(g)
    ensures StoreOk(g, rules, InitColumns(g))
  {
    var c := InitColumns(g);
    assert c.blocks == map[g.hash := g] && c.tip == g.hash;
    assert c.exts == map[g.hash := BlockExt(g.difficulty, 0, Some(true))];
    InitAgrees(g);
    InitTree(g, c);
    InitSane(g);
    hide InitColumns, Agrees, Sane, ChainOk, MarksOk, TotalsOk, TipHeaviest, AllPassed, Tree;
    NonePassed(rules, g);
    AgreesChain(c, [g]);
    assert GoodPath(rules, [g]);
  }

  lemma {:induction false} NonePassed(rules: Rules, g: Block)
    ensures AllPassed(rules, [g])
  {
  }

  lemma {:induction false} AgreesChain(c: Columns, p: seq<Block>)
    requires Agrees(c, p)
    ensures ChainOk(p)
  {
  }

  lemma {:induction false} InitAgrees(g: Block)
    requires GenesisOk(g)
    ensures Agrees(InitColumns(g), [g])
  {
    hide CellMap, InfoMap, TxsOk, ApplyTxs, CollisionFree;
    assert [g] == [] + [g];
    assert Replay([]) == EMPTY;
    ReplayStep([], g);
    GenesisLedger(g, |g.txs|);
    InitIsReplay(g, |g.txs|);
    assert InfoMap(EMPTY) == map[] by { EmptyInfo(); }
    PutInfosIsInfoMap(EMPTY, g, |g.txs|);
    UnclesStep([], g);
    IndexStep([], g);
  }

  lemma {:induction false} EmptyInfo()
    ensures InfoMap(EMPTY) == map[]
  {
  }

  // ---------------------------------------------------------------- the service

  datatype Outcome = Known | Inserted | Refused(error: InsertError)

  datatype InsertError = NonContextual | InvalidParent | Contextual

  lemma {:induction false} DetachAllStep(c: Columns, ds: seq<Block>, i: nat)
    requires i < |ds|
    ensures DetachAll(c, Reverse(ds)[..|ds| - i]) == Detach(DetachAll(c, Reverse(ds)[..|ds| - i - 1]), ds[i])
  {
    var rs := Reverse(ds);
    assert rs[..|ds| - i][..|ds| - i - 1] == rs[..|ds| - i - 1];
  }

  /** `rollback`: the detached blocks in reverse of the order they were found in. */
  method Rollback(fork: ForkChanges, txn: StoreTransaction)
    modifies txn
    ensures txn.cols == DetachAll(old(txn.cols), Reverse(fork.detached))
  {
    var ds := fork.detached;
    ghost var rs := Reverse(ds);
    for i := |ds| downto 0
      invariant txn.cols == DetachAll(old(txn.cols), rs[..|ds| - i])
    {
      hide DetachAll, DetachTxs, Reverse;
      DetachAllStep(old(txn.cols), ds, i);
      txn.DetachBlock(ds[i]);
      DetachBlockCell(txn, ds[i]);
    }
    assert rs[..|ds|] == rs;
  }

  /** What `find_fork` found. */
  ghost predicate Found(c: Columns, m: seq<Block>, np: seq<Block>, ext: BlockExt, k: nat, detached: seq<Block>,
                        dirty: seq<BlockExt>) {
    && |m| > 0 && |np| > 1
    && ForksAt(m, np, k) && k <= Aligned(m, np) + 1
    && detached == Detached(m, np, k)
    && LinesUp(c, np, ext, dirty) && |dirty| <= |np| - k
    && AllVerified(c, np, k, |np| - |dirty|)
  }

  lemma {:induction false} FoundBounds(c: Columns, m: seq<Block>, np: seq<Block>, ext: BlockExt, k: nat,
                                       detached: seq<Block>, dirty: seq<BlockExt>)
    requires Found(c, m, np, ext, k, detached, dirty)
    ensures 0 < k <= |m| && k < |np| && 1 <= |dirty| <= |np| - k && m[..k] == np[..k]
  {
  }

  lemma {:induction false} DetachAllFrame(c: Columns, ds: seq<Block>)
    ensures DetachAll(c, ds).blocks == c.blocks && DetachAll(c, ds).exts == c.exts && DetachAll(c, ds).tip == c.tip
  {
    if ds != [] { DetachAllFrame(c, ds[..|ds| - 1]); }
  }

  /** Rolling back what was found leads to the columns of the common chain. */
  lemma {:induction false} RolledBack(c: Columns, d: Columns, m: seq<Block>, np: seq<Block>, ext: BlockExt, k: nat,
                                      detached: seq<Block>, dirty: seq<BlockExt>)
    requires Agrees(d, m) && Numbered(m) && Found(c, m, np, ext, k, detached, dirty)
    ensures 0 < k < |np| && Agrees(DetachAll(d, Reverse(detached)), np[..k])
    ensures DetachAll(d, Reverse(detached)).blocks == d.blocks && DetachAll(d, Reverse(detached)).exts == d.exts
  {
    hide Agrees, DetachAll, Numbered, LinesUp, AllVerified;
    DetachedElems(m, np, k);
    RollbackRestores(d, m, k, Reverse(detached));
    DetachAllFrame(d, Reverse(detached));
  }

  lemma {:induction false} GoodIsOk(rules: Rules, p: seq<Block>)
    requires GoodPath(rules, p)
    ensures ChainOk(p)
  {
    hide ChainOk, AllPassed, BlocksChecked;
  }

  lemma {:induction false} FoundGood(g: Block, rules: Rules, c: Columns, b: Block, ext: BlockExt, k: nat,
                                     detached: seq<Block>, dirty: seq<BlockExt>)
    requires Tree(g, c.blocks) && c.tip in c.blocks && b.parent in c.blocks
    requires StoreOk(g, rules, c) && Attachable(c.blocks, b)
    requires Found(c, Path(g, c.blocks, c.tip), NewPath(g, c.blocks, b), ext, k, detached, dirty)
    ensures var np := NewPath(g, c.blocks, b);
            |dirty| < |np| && GoodPath(rules, np[..|np| - |dirty|]) && ChainOk(np[..|np| - |dirty|])
  {
    hide StoreOk, Tree, Path, NewPath, GoodPath, ChainOk, LinesUp, AllVerified, ForksAt, Detached, Attachable;
    var m, np := Path(g, c.blocks, c.tip), NewPath(g, c.blocks, b);
    FoundBounds(c, m, np, ext, k, detached, dirty);
    VerifiedPrefixGood(g, rules, c, b, k, |np| - |dirty|);
    GoodIsOk(rules, np[..|np| - |dirty|]);
  }

  lemma {:induction false} ReorganisedNow(g: Block, rules: Rules, c: Columns, d: Columns, b: Block, ext: BlockExt,
                                          k: nat, detached: seq<Block>, dirty: seq<BlockExt>)
    requires StoreOk(g, rules, c) && Attachable(c.blocks, b)
    requires Found(c, Path(g, c.blocks, c.tip), NewPath(g, c.blocks, b), ext, k, detached, dirty)
    requires d.blocks == c.blocks[b.hash := b] && d.exts == MarkValid(c.exts, NewPath(g, c.blocks, b), dirty, |dirty|)
    ensures Reorganised(g, c, d, b, ext, |NewPath(g, c.blocks, b)| - |dirty|)
  {
    hide Agrees, OnlyMarks, MarkValid, MarksOk, PathsGood, Sane, TotalsOk, Path, Detached, Overhang;
    var np := NewPath(g, c.blocks, b);
    MarksWritten(c, np, ext, dirty, |dirty|);
    BelowDirtyMarked(g, c, b, k, |np| - |dirty|);
  }

  /**
    The steps for a new best block on the open transaction: find the fork, roll back, attach
    what was verified before, verify the rest.
   */
  method SwitchChain(rules: Rules, c: Columns, txn: StoreTransaction, ghost m: seq<Block>, ghost np: seq<Block>,
                     tipNumber: nat, b: Block, ext: BlockExt)
      returns (ok: bool, fork: ForkChanges, ghost k: nat)
    requires Readable(c, m, np) && Meets(c, m, np) && Marked(c, np) && Candidate(txn.cols, np) && Agrees(txn.cols, m)
    requires |m| > 0 && |np| > 1 && tipNumber == |m| - 1 && b == np[|np| - 1]
    requires Numbered(m) && Stored(txn.cols.blocks, np) && Numbered(np)
    requires forall k: nat, detached, dirty {:trigger Found(c, m, np, ext, k, detached, dirty)} ::
               Found(c, m, np, ext, k, detached, dirty) ==>
                 |dirty| < |np| && GoodPath(rules, np[..|np| - |dirty|]) && ChainOk(np[..|np| - |dirty|])
    modifies txn
    ensures fresh(fork) && txn.cols.blocks == old(txn.cols).blocks
    ensures Found(c, m, np, ext, k, fork.detached, fork.dirty)
    ensures ok ==> Prepared(rules, txn.cols, np)
    ensures ok ==> |fork.dirty| <= |np| && txn.cols.exts == MarkValid(old(txn.cols).exts, np, fork.dirty, |fork.dirty|)
    ensures !ok ==> |fork.dirty| < |np| && Fails(rules, np, |np| - |fork.dirty|)
  {
    hide Fails, Readable, Meets, Marked, Candidate, Agrees, GoodPath, ChainOk, Numbered, Stored, MarkValid, DetachAll,
         Reverse, Prepared;
    ghost var d := txn.cols;
    fork := new ForkChanges();
    k := FindFork(c, m, np, fork, tipNumber, b, ext);
    assert Found(c, m, np, ext, k, fork.detached, fork.dirty);
    FoundBounds(c, m, np, ext, k, fork.detached, fork.dirty);
    RolledBack(c, d, m, np, ext, k, fork.detached, fork.dirty);
    Rollback(fork, txn);
    AttachVerified(txn, fork, np, k);
    IsPrepared(rules, txn.cols, np[..|np| - |fork.dirty|]);
    CandidateFrame(d, txn.cols, np);
    ok := VerifyDirty(rules, txn, fork, np, k);
  }

  lemma {:induction false} ForkReady(g: Block, rules: Rules, c: Columns, d: Columns, b: Block)
    requires Tree(g, c.blocks) && c.tip in c.blocks && b.parent in c.blocks
    requires StoreOk(g, rules, c) && Attachable(c.blocks, b) && NonContextualOk(b) && SaneBlock(c.blocks, b)
    requires d == c.(blocks := c.blocks[b.hash := b])
    ensures var m, np := Path(g, c.blocks, c.tip), NewPath(g, c.blocks, b);
            && Readable(c, m, np) && Meets(c, m, np) && Marked(c, np) && Candidate(d, np) && Agrees(d, m)
            && Numbered(m) && Stored(d.blocks, np) && Numbered(np)
  {
    hide Readable, Meets, Marked, Candidate, Agrees, MarksOk, Sane, SaneBlock, Numbered, Stored, Path, NewPath,
         PathsGood, TotalsOk, Linked;
    ReadableFork(g, rules, c, b);
    MeetsFork(g, c, b);
    MarkedFork(g, c, b);
    IsCandidate(g, c, d, b);
    AgreesFrame(c, d, Path(g, c.blocks, c.tip), b);
    PathShape(g, c.blocks, c.tip);
    NewPathShape(g, c.blocks, b);
  }

  lemma {:induction false} ForkGood(g: Block, rules: Rules, c: Columns, b: Block, ext: BlockExt)
    requires Tree(g, c.blocks) && c.tip in c.blocks && b.parent in c.blocks
    requires StoreOk(g, rules, c) && Attachable(c.blocks, b)
    ensures var m, np := Path(g, c.blocks, c.tip), NewPath(g, c.blocks, b);
            forall k: nat, detached, dirty {:trigger Found(c, m, np, ext, k, detached, dirty)} ::
              Found(c, m, np, ext, k, detached, dirty) ==>
                |dirty| < |np| && GoodPath(rules, np[..|np| - |dirty|]) && ChainOk(np[..|np| - |dirty|])
  {
    hide StoreOk, Attachable, Found, GoodPath, ChainOk, Path, NewPath, Tree;
    var m, np := Path(g, c.blocks, c.tip), NewPath(g, c.blocks, b);
    forall k: nat, detached, dirty | Found(c, m, np, ext, k, detached, dirty)
      ensures |dirty| < |np| && GoodPath(rules, np[..|np| - |dirty|]) && ChainOk(np[..|np| - |dirty|])
    {
      FoundGood(g, rules, c, b, ext, k, detached, dirty);
    }
  }

  /** The transaction of a new best block, ready to commit when the result is positive. */
  method BestBlock(g: Block, rules: Rules, c: Columns, txn: StoreTransaction, tipNumber: nat, b: Block, ext: BlockExt)
      returns (ok: bool)
    requires Tree(g, c.blocks) && c.tip in c.blocks && b.parent in c.blocks && c.exts.Keys == c.blocks.Keys
    requires StoreOk(g, rules, c) && Attachable(c.blocks, b) && SaneBlock(c.blocks, b) && NonContextualOk(b)
    requires txn.cols == c.(blocks := c.blocks[b.hash := b]) && tipNumber == c.blocks[c.tip].number
    requires FreshExt(c, b, ext) && ext.totalDifficulty > c.exts[c.tip].totalDifficulty
    modifies txn
    ensures ok ==> (StoreOk(g, rules, txn.cols) <==> ReplayFree(NewPath(g, c.blocks, b))) && HeadersOk(g, txn.cols)
    ensures ok ==> txn.cols.blocks == c.blocks[b.hash := b] && txn.cols.tip == b.hash
    ensures ok ==> b.hash in txn.cols.exts && txn.cols.exts[b.hash] == ext.(verified := Some(true))
    ensures !ok ==> Fails(rules, NewPath(g, c.blocks, b), 1)
  {
    hide StoreOk, Attachable, SaneBlock, NonContextualOk, FreshExt, Tree, Found, GoodPath, ChainOk, Path, Readable,
         Meets, Marked, Candidate, Agrees, Numbered, Stored, MarkValid, Reorganised, Prepared, ReplayFree,
         HeadersOk;
    ghost var m, np := Path(g, c.blocks, c.tip), NewPath(g, c.blocks, b);
    ForkReady(g, rules, c, txn.cols, b);
    ForkGood(g, rules, c, b, ext);
    var fork: ForkChanges;
    ghost var k: nat;
    ok, fork, k := SwitchChain(rules, c, txn, m, np, tipNumber, b, ext);
    if ok {
      ghost var d := txn.cols;
      txn.cols := txn.cols.(tip := b.hash);
      Committed(g, rules, c, d, txn.cols, b, ext, k, fork.detached, fork.dirty);
    } else {
      FailsFrom(rules, np, |np| - |fork.dirty|);
    }
  }

  lemma {:induction false} FailsFrom(rules: Rules, np: seq<Block>, from: nat)
    requires Fails(rules, np, from) && from > 0
    ensures Fails(rules, np, 1)
  {
  }

  /** A good store has no chain that commits a genesis transaction again as its main chain. */
  lemma {:induction false} ReplaySpoils(g: Block, rules: Rules, blocks: map<Hash, Block>, d: Columns, b: Block)
    requires Tree(g, blocks) && Attachable(blocks, b) && d.blocks == blocks[b.hash := b] && d.tip == b.hash
    requires StoreOk(g, rules, d)
    ensures ReplayFree(NewPath(g, blocks, b))
  {
    hide PathsGood, Sane, MarksOk, TotalsOk, ReplayFree;
    NewPathShape(g, blocks, b);
    LedgerReplayFree(NewPath(g, blocks, b));
  }

  lemma {:induction false} LedgerReplayFree(p: seq<Block>)
    requires ChainOk(p)
    ensures ReplayFree(p)
  {
    forall i | 0 < i < |p| ensures NoGenesisReplay(p[0], p[i]) {
      BlocksDisjoint(p, 0, i);
      forall x, j | 0 <= x < |p[i].txs| && 0 <= j < |p[0].txs| ensures p[i].txs[x].hash != p[0].txs[j].hash {
        assert p[i].txs[x].hash in TxHashes(p[i]) && p[0].txs[j].hash in TxHashes(p[0]);
      }
    }
  }

  lemma {:induction false} Committed(g: Block, rules: Rules, c: Columns, d: Columns, d': Columns, b: Block,
                                     ext: BlockExt, k: nat, detached: seq<Block>, dirty: seq<BlockExt>)
    requires Tree(g, c.blocks) && c.tip in c.blocks && b.parent in c.blocks && c.exts.Keys == c.blocks.Keys
    requires StoreOk(g, rules, c) && Attachable(c.blocks, b) && SaneBlock(c.blocks, b) && NonContextualOk(b)
    requires FreshExt(c, b, ext) && ext.totalDifficulty > c.exts[c.tip].totalDifficulty
    requires Found(c, Path(g, c.blocks, c.tip), NewPath(g, c.blocks, b), ext, k, detached, dirty)
    requires |dirty| <= |NewPath(g, c.blocks, b)|
    requires d.blocks == c.blocks[b.hash := b] && d.exts == MarkValid(c.exts, NewPath(g, c.blocks, b), dirty, |dirty|)
    requires Prepared(rules, d, NewPath(g, c.blocks, b)) && d' == d.(tip := b.hash)
    ensures (StoreOk(g, rules, d') <==> ReplayFree(NewPath(g, c.blocks, b))) && HeadersOk(g, d')
    ensures b.hash in d'.exts && d'.exts[b.hash] == ext.(verified := Some(true))
  {
    hide StoreOk, Attachable, SaneBlock, NonContextualOk, FreshExt, Tree, Found, GoodPath, ChainOk, Path, NewPath,
         MarkValid, Stored, OnlyMarks, Replay, CellMap, InfoMap, UncleMap, HashIndex, NumberIndex, ReplayFree,
         HeadersOk;
    ReorganisedNow(g, rules, c, d', b, ext, k, detached, dirty);
    HeadersAfter(g, rules, c, d', b, ext, |NewPath(g, c.blocks, b)| - |dirty|);
    if ReplayFree(NewPath(g, c.blocks, b)) {
      StoreAfter(g, rules, c, d', b, ext, |NewPath(g, c.blocks, b)| - |dirty|);
    } else if StoreOk(g, rules, d') {
      ReplaySpoils(g, rules, c.blocks, d', b);
      assert false;
    }
  }

  lemma {:induction false} StoreFacts(g: Block, rules: Rules, c: Columns)
    requires StoreOk(g, rules, c)
    ensures Tree(g, c.blocks) && c.tip in c.blocks && c.exts.Keys == c.blocks.Keys
    ensures forall h :: h in c.exts ==> c.exts[h].verified != Some(false)
  {
  }

  /** The extension of a block that is not verified yet: totals over its ancestors and itself. */
  function NewExt(c: Columns, b: Block): BlockExt
    requires b.parent in c.exts
  {
    var parent := c.exts[b.parent];
    BlockExt(parent.totalDifficulty + b.difficulty, parent.totalUncles + |b.uncles|, None)
  }

  /** The chain of the block b would be heavier than the main chain. */
  predicate Heavier(c: Columns, b: Block) {
    b.parent in c.exts && c.tip in c.exts && NewExt(c, b).totalDifficulty > c.exts[c.tip].totalDifficulty
  }

  /** The block b was stored: as the new tip if its chain is heavier, or else aside, changing nothing more. */
  ghost predicate InsertedInto(c: Columns, b: Block, d: Columns) {
    && b.parent in c.exts && d.blocks == c.blocks[b.hash := b]
    && if Heavier(c, b) then
         d.tip == b.hash && b.hash in d.exts && d.exts[b.hash] == NewExt(c, b).(verified := Some(true))
       else d == c.(blocks := d.blocks, exts := c.exts[b.hash := NewExt(c, b)])
  }

  /** The chain of b is heavier, but one of its blocks fails verification. */
  ghost predicate RefusedOn(g: Block, rules: Rules, c: Columns, b: Block) {
    Tree(g, c.blocks) && b.parent in c.blocks && Heavier(c, b) && Fails(rules, NewPath(g, c.blocks, b), 1)
  }

  /** The block fits, and the chain that it would make commits a genesis transaction again. */
  predicate Replays(g: Block, blocks: map<Hash, Block>, b: Block) {
    Tree(g, blocks) && Attachable(blocks, b) && !ReplayFree(NewPath(g, blocks, b))
  }

  /** The service as the source keeps it: the committed columns and the snapshot's tip. */
  class ChainService {
    const genesis: Block
    const rules: Rules
    var store: Columns
    var tipNumber: nat
    var totalDifficulty: nat

    ghost predicate Valid()
      reads this
    {
      StoreOk(genesis, rules, store) && Current()
    }

    /** The snapshot's tip is that of the committed columns. */
    predicate Current()
      reads this
    {
      && store.tip in store.blocks && tipNumber == store.blocks[store.tip].number
      && store.tip in store.exts && totalDifficulty == store.exts[store.tip].totalDifficulty
    }

    /** `ChainDB::init` on an empty database. */
    constructor (g: Block, rules: Rules)
      requires GenesisOk(g)
      ensures Valid() && genesis == g && this.rules == rules
      ensures store == InitColumns(g)
    {
      hide StoreOk, NewMeta;
      genesis, this.rules := g, rules;
      tipNumber, totalDifficulty := 0, g.difficulty;
      var txn := new StoreTransaction(Columns(map[], map[], map[], map[], map[], map[], map[], ZERO_HASH));
      for i := 0 to |g.txs|
        invariant txn.cols == Columns(map[], map[], map[], map[], map[], map[], InitCells(g, i), ZERO_HASH)
      {
        txn.cols := txn.cols.(cells := txn.cols.cells[g.txs[i].hash := NewMeta(g, g.txs[i], false)]);
      }
      txn.InsertBlock(g);
      txn.InsertBlockExt(g.hash, BlockExt(g.difficulty, 0, Some(true)));
      txn.cols := txn.cols.(tip := g.hash);
      txn.AttachBlock(g);
      store := txn.cols;
      InitGood(g, rules);
    }

    /**
      `insert_block`. The caller has verified the header and stored the parent; a refused block
      leaves everything as it was, because its transaction is dropped.
     */
    method InsertBlock(b: Block) returns (r: Outcome)
      requires Valid()
      requires b.hash !in store.blocks ==> Attachable(store.blocks, b) && SaneBlock(store.blocks, b)
      modifies this
      ensures Current() && HeadersOk(genesis, store)
      ensures Valid() <==> !(r == Inserted && store.tip == b.hash && Replays(genesis, old(store).blocks, b))
      ensures r == Known <==> b.hash in old(store).blocks
      ensures r != Inserted ==>
                store == old(store) && tipNumber == old(tipNumber) && totalDifficulty == old(totalDifficulty)
      ensures r != Refused(InvalidParent)
      ensures r == Refused(NonContextual) <==> r != Known && !(NonContextualOk(b) && rules.standalone(b))
      ensures r == Refused(Contextual) ==> RefusedOn(genesis, rules, old(store), b)
      ensures r == Inserted ==> InsertedInto(old(store), b, store)
    {
      hide StoreOk, HeadersOk, SaneBlock, NonContextualOk, Tree, ReplayFree, Fails;
      StoreFacts(genesis, rules, store);
      GoodHeaders(genesis, rules, store);
      if b.hash in store.blocks { return Known; }
      if !(NonContextualOk(b) && rules.standalone(b)) { return Refused(NonContextual); }
      var parentExt := store.exts[b.parent];
      if parentExt.verified == Some(false) { return Refused(InvalidParent); }
      var txn := new StoreTransaction(store);
      txn.InsertBlock(b);
      var total := parentExt.totalDifficulty + b.difficulty;
      var ext := BlockExt(total, parentExt.totalUncles + |b.uncles|, None);
      assert ext == NewExt(store, b);
      if total > totalDifficulty {
        var ok := BestBlock(genesis, rules, store, txn, tipNumber, b, ext);
        if !ok { return Refused(Contextual); }
        store, tipNumber, totalDifficulty := txn.cols, b.number, total;
      } else {
        txn.InsertBlockExt(b.hash, ext);
        StoreAside(genesis, rules, store, txn.cols, b, ext);
        store := txn.cols;
        StoreFacts(genesis, rules, store);
        GoodHeaders(genesis, rules, store);
      }
      return Inserted;
    }
  }
}
