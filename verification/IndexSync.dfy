/**
  The indexer against the chain store: what a snapshot answers, and why following a
  reorganisation block by block keeps the rows of a lock equal to a scan.
 */
module IndexSync {
  import opened Types
  import opened Ledger
  import opened Store
  import opened BlockTree
  import opened IndexBook
  import opened IndexColumns
  import MainChain
  import Admission

  /** A snapshot of the chain store whose main chain can be scanned. */
  ghost predicate Snapshot(g: Block, u: Outputs, c: Columns) {
    && Tree(g, c.blocks) && c.tip in c.blocks
    && MainChain.Agrees(c, MainPath(g, c)) && ScanOk(MainPath(g, c))
    && forall h :: h in c.blocks ==> Says(u, c.blocks[h])
  }

  // ---------------------------------------------------------------- what the snapshot answers

  ghost predicate CellAt(p: seq<Block>, op: OutPoint, cell: Cell, n: nat, i: nat) {
    && n < |p| && i < |p[n].txs| && p[n].txs[i].hash == op.txHash && op.index < |p[n].txs[i].outputs|
    && cell == CellOf(p[n].number, p[n].txs[i], op.index)
  }

  lemma {:induction false} OutputsCreate(s: Book, n: nat, tx: Tx, k: nat, op: OutPoint)
    requires k <= |tx.outputs| && op in BookOutputs(s, n, tx, k).created
    ensures var cell := BookOutputs(s, n, tx, k).created[op];
            (op in s.created && cell == s.created[op]) ||
            (op.txHash == tx.hash && op.index < k && cell == CellOf(n, tx, op.index))
  {
    if k > 0 && op != OutPoint(tx.hash, k - 1) { OutputsCreate(s, n, tx, k - 1, op); }
  }

  lemma {:induction false} TxsCreate(s: Book, b: Block, k: nat, op: OutPoint) returns (i: nat)
    requires k <= |b.txs| && op in BookTxs(s, b, k).created
    ensures var cell := BookTxs(s, b, k).created[op];
            (op in s.created && cell == s.created[op]) ||
            (&& i < k && b.txs[i].hash == op.txHash && op.index < |b.txs[i].outputs|
             && cell == CellOf(b.number, b.txs[i], op.index))
  {
    i := 0;
    if k > 0 {
      var t, tx := BookTxs(s, b, k - 1), b.txs[k - 1];
      InputsCreateNothing(t, b.number, tx, SpendCount(tx));
      OutputsCreate(BookInputs(t, b.number, tx, SpendCount(tx)), b.number, tx, |tx.outputs|, op);
      if op in t.created && BookTxs(s, b, k).created[op] == t.created[op] {
        i := TxsCreate(s, b, k - 1, op);
      } else {
        i := k - 1;
      }
    }
  }

  /** Every cell of a scan sits in the chain where the scan says. */
  lemma {:induction false} ScanCreate(p: seq<Block>, op: OutPoint) returns (n: nat, i: nat)
    requires op in Scan(p).created
    ensures CellAt(p, op, Scan(p).created[op], n, i)
  {
    var q, b := p[..|p| - 1], p[|p| - 1];
    i := TxsCreate(Scan(q), b, |b.txs|, op);
    if op in Scan(q).created && Scan(p).created[op] == Scan(q).created[op] {
      n, i := ScanCreate(q, op);
    } else {
      n := |p| - 1;
    }
  }

  lemma {:induction false} ScanKnown(u: Outputs, p: seq<Block>)
    requires forall i :: 0 <= i < |p| ==> Says(u, p[i])
    ensures BookKnown(u, Scan(p))
  {
    forall op | op in Scan(p).created ensures Known(u, op) && Scan(p).created[op].output.lock == LockOf(u, op) {
      var n, i := ScanCreate(p, op);
      assert SaysTx(u, p[n].txs[i]);
    }
  }

  lemma {:induction false} StoredTx(c: Columns, m: seq<Block>, n: nat, i: nat)
    requires MainChain.Agrees(c, m) && n < |m| && i < |m[n].txs|
    ensures GetTransaction(c, m[n].txs[i].hash) == Some((m[n].txs[i], m[n]))
  {
    ReplayGrows(m, n);
    assert Replay(m).txs[m[n].txs[i].hash] == RecAt(m[n], i);
    assert m[n].txs[i].hash in TxHashes(m[n]);
  }

  /** The store answers for every cell of the main chain. */
  lemma {:induction false} MainBacked(c: Columns, m: seq<Block>, k: nat)
    requires MainChain.Agrees(c, m) && k <= |m|
    ensures AllBacked(c, Scan(m[..k]), {})
  {
    hide MainChain.Agrees, Scan;
    forall op | op in Scan(m[..k]).created ensures Backed(c, Scan(m[..k]), op) {
      var n, i := ScanCreate(m[..k], op);
      StoredTx(c, m, n, i);
    }
  }

  /** What the store answers is known. */
  ghost predicate Answers(u: Outputs, c: Columns) {
    forall h :: GetTransaction(c, h).Some? ==> h in u && GetTransaction(c, h).value.0.outputs == u[h]
  }

  lemma {:induction false} StoreAnswers(u: Outputs, c: Columns, m: seq<Block>)
    requires MainChain.Agrees(c, m) && forall i :: 0 <= i < |m| ==> Says(u, m[i])
    ensures Answers(u, c)
  {
    forall h | GetTransaction(c, h).Some? ensures h in u && GetTransaction(c, h).value.0.outputs == u[h] {
      Admission.RecsOfChain(m, h);
      ReplayOk(m);
      var r := Replay(m).txs[h];
      StoredTx(c, m, r.number, r.index);
      assert SaysTx(u, m[r.number].txs[r.index]);
    }
  }

  // ---------------------------------------------------------------- where two chains part

  /** How many leading blocks two chains share. */
  function Shared(p: seq<Block>, m: seq<Block>): (k: nat)
    ensures k <= |p| && k <= |m| && p[..k] == m[..k]
    ensures k < |p| && k < |m| ==> p[k] != m[k]
  {
    if p == [] || m == [] || p[0] != m[0] then 0 else
    var k := Shared(p[1..], m[1..]);
    assert p[..k + 1] == [p[0]] + p[1..][..k] && m[..k + 1] == [m[0]] + m[1..][..k];
    k + 1
  }

  lemma {:induction false} MeetBelow(g: Block, blocks: map<Hash, Block>, h: Hash, h': Hash, i: nat)
    requires Tree(g, blocks) && h in blocks && h' in blocks
    requires i < |Path(g, blocks, h)| && i < |Path(g, blocks, h')|
    ensures var p, m := Path(g, blocks, h), Path(g, blocks, h'); p[i].hash == m[i].hash <==> i < Shared(p, m)
  {
    var p, m := Path(g, blocks, h), Path(g, blocks, h');
    var k := Shared(p, m);
    if i < k { assert p[i] == p[..k][i] == m[..k][i] == m[i]; }
    if p[i].hash == m[i].hash {
      PathAt(g, blocks, h, i);
      PathAt(g, blocks, h', i);
      PathsMeet(g, blocks, h, h', i);
      assert forall j :: 0 <= j < i + 1 ==> p[j] == p[..i + 1][j] && m[j] == m[..i + 1][j];
    }
  }

  /** Cells that only the abandoned part of a chain created. */
  function Doubtful(p: seq<Block>, k: nat): set<OutPoint>
    requires k <= |p|
  {
    Scan(p).created.Keys - Scan(p[..k]).created.Keys
  }

  lemma {:induction false} SurelyBacked(c: Columns, p: seq<Block>, k: nat, j: nat)
    requires k <= j <= |p| && ScanOk(p) && AllBacked(c, Scan(p[..k]), {})
    ensures AllBacked(c, Scan(p[..j]), Doubtful(p, k))
  {
    ScanPrefix(p, j);
    ScanPrefix(p, k);
    forall op | op in Scan(p[..j]).created && op !in Doubtful(p, k) ensures Backed(c, Scan(p[..j]), op) {
      hide Backed, Scan, ScanOk;
      assert op in Scan(p[..k]).created;
      BackedFrame(c, Scan(p[..k]), Scan(p[..j]), op);
    }
  }

  lemma {:induction false} NoDoubt(x: Index, lock: Hash, p: seq<Block>, k: nat)
    requires k <= |p|
    ensures Matches(x, lock, Scan(p), {}) ==> Matches(x, lock, Scan(p), Doubtful(p, k))
    ensures Matches(x, lock, Scan(p[..k]), Doubtful(p, k)) ==> Matches(x, lock, Scan(p[..k]), {})
  {
    var d := Doubtful(p, k);
    if Matches(x, lock, Scan(p), {}) { LessSure(x, lock, Scan(p), {}, d); }
    if Matches(x, lock, Scan(p[..k]), d) { LessSure(x, lock, Scan(p[..k]), d, {}); }
  }

  lemma {:induction false} LessSure(x: Index, lock: Hash, s: Book, d: set<OutPoint>, e: set<OutPoint>)
    requires Matches(x, lock, s, d) && forall op :: op in s.created && op !in e ==> op !in d
    ensures Matches(x, lock, s, e)
  {
    forall op | op in s.created && s.created[op].output.lock == lock ensures RowsOf(x, s, e, op) {
      assert RowsOf(x, s, d, op);
    }
  }

  lemma {:induction false} ScanStep(p: seq<Block>, i: nat)
    requires i < |p| && ScanOk(p)
    ensures ScanOk(p[..i]) && BookOk(Scan(p[..i])) && TxsFit(Scan(p[..i]), p[i], |p[i].txs|) && Admission.Ordered(p[i])
    ensures Scan(p[..i + 1]) == BookBlock(Scan(p[..i]), p[i])
    ensures i > 0 ==> InputsFit(Scan(p[..i]), Scan(p[..1]).spent.Keys, p[i])
  {
    ScanPrefix(p, i + 1);
    ScanPrefix(p, i);
    assert p[..i + 1][..i] == p[..i];
    if i > 0 { assert p[..i][..1] == p[..1]; }
  }

  // ---------------------------------------------------------------- walking down an abandoned chain

  /** From height i on, some block of the chain spends a cell of the lock that was spent in gb already. */
  ghost predicate RespendsFrom(gb: Book, p: seq<Block>, i: nat, lock: Hash) {
    exists j :: i <= j < |p| && Respends(gb, p[j], lock)
  }

  /**
    The rows once the blocks from height i on are detached. They are those of the chain below,
    doubtful cells and those that genesis spent excepted. The latter are right as well, unless they
    were wrong before or one of the detached blocks spent such a cell of the lock again.
   */
  ghost predicate Unwound(p: seq<Block>, k: nat, i: nat, x: Index, lock: Hash, stray: bool)
    requires k <= |p| && i <= |p| && p != []
  {
    var gb := Scan(p[..1]);
    && Matches(x, lock, Scan(p[..i]), Doubtful(p, k) + gb.spent.Keys)
    && (stray || RespendsFrom(gb, p, i, lock) ==> Haunted(gb, x, lock))
    && (RespendsFrom(gb, p, i, lock) ==> LiveAgain(gb, x, lock))
    && (stray || RespendsFrom(gb, p, i, lock) || Matches(x, lock, Scan(p[..i]), Doubtful(p, k)))
  }

  lemma {:induction false} GenesisPoints(g: Block, k: nat)
    requires k <= |g.txs|
    ensures forall op :: op in BookTxs(BLANK, g, k).spent ==> BookTxs(BLANK, g, k).spent[op].number == g.number
  {
    if k > 0 {
      GenesisPoints(g, k - 1);
      var s, tx := BookTxs(BLANK, g, k - 1), g.txs[k - 1];
      InputPoints(s, g.number, tx, SpendCount(tx));
      OutputsSpendNothing(BookInputs(s, g.number, tx, SpendCount(tx)), g.number, tx, |tx.outputs|);
    }
  }

  lemma {:induction false} InputPoints(s: Book, n: nat, tx: Tx, k: nat)
    requires k <= |tx.inputs|
    ensures var t := BookInputs(s, n, tx, k);
            forall op :: op in t.spent ==> t.spent[op].number == n || (op in s.spent && t.spent[op] == s.spent[op])
  {
    if k > 0 { InputPoints(s, n, tx, k - 1); }
  }

  lemma {:induction false} OutputsSpendNothing(s: Book, n: nat, tx: Tx, k: nat)
    requires k <= |tx.outputs|
    ensures BookOutputs(s, n, tx, k).spent == s.spent
  {
    if k > 0 { OutputsSpendNothing(s, n, tx, k - 1); }
  }

  lemma {:induction false} SpentAtGenesis(p: seq<Block>)
    requires p != [] && p[0].number == 0
    ensures AtGenesis(Scan(p[..1]))
  {
    assert p[..1] == [p[0]] && p[..1][..0] == [];
    GenesisPoints(p[0], |p[0].txs|);
  }

  lemma {:induction false} GenesisNotDoubtful(p: seq<Block>, k: nat, i: nat)
    requires 0 < k <= |p| && 0 < i <= |p| && ScanOk(p)
    ensures BookOk(Scan(p[..1])) && Extends(Scan(p[..1]), Scan(p[..i])) && Doubtful(p, k) !! Scan(p[..1]).created.Keys
  {
    ScanPrefix(p, i);
    ScanPrefix(p, k);
    ScanPrefix(p[..i], 1);
    ScanPrefix(p[..k], 1);
    assert p[..i][..1] == p[..1] && p[..k][..1] == p[..1];
  }

  lemma {:induction false} RespendsLower(gb: Book, p: seq<Block>, i: nat, lock: Hash)
    requires i < |p|
    ensures RespendsFrom(gb, p, i, lock) <==> Respends(gb, p[i], lock) || RespendsFrom(gb, p, i + 1, lock)
  {
    hide Respends;
  }

  /** One block of the walk down. */
  lemma {:induction false} StepDown(u: Outputs, c: Columns, x: Index, lock: Hash, p: seq<Block>, k: nat, i: nat,
                                    stray: bool)
    requires 0 < k <= i < |p| && p[0].number == 0 && ScanOk(p) && AllBacked(c, Scan(p[..k]), {})
    requires (forall j :: 0 <= j < |p| ==> Says(u, p[j])) && OpsKnown(u, x)
    requires Unwound(p, k, i + 1, x, lock, stray)
    ensures Unwound(p, k, i, DetachTxs(x, {lock}, c, p[i], 0), lock, stray)
  {
    hide Matches, OpsKnown, AllBacked, BookKnown, TxsFit, BookOk, Doubtful, DetachTxs, Haunted, Respends, RespendsFrom,
         InputsFit, Extends, LiveAgain, AtGenesis;
    var gb := Scan(p[..1]);
    ScanStep(p, i);
    GenesisNotDoubtful(p, k, i);
    SpentAtGenesis(p);
    RespendsLower(gb, p, i, lock);
    ScanKnown(u, p[..i + 1]);
    SurelyBacked(c, p, k, i + 1);
    var rough := Doubtful(p, k) + gb.spent.Keys;
    LessBacked(c, Scan(p[..i + 1]), Doubtful(p, k), rough);
    DetachRoughly(u, gb.spent.Keys, x, lock, Scan(p[..i]), rough, {lock}, c, p[i]);
    if Haunted(gb, x, lock) { HauntedStays(gb, x, lock, Scan(p[..i]), {lock}, c, p[i]); }
    if Respends(gb, p[i], lock) {
      RespendHaunts(gb, x, lock, Scan(p[..i]), Doubtful(p, k), rough, {lock}, c, p[i]);
    } else if !stray && !RespendsFrom(gb, p, i + 1, lock) {
      DetachExactly(u, gb, x, lock, Scan(p[..i]), Doubtful(p, k), {lock}, c, p[i]);
    }
  }

  lemma {:induction false} LessBacked(c: Columns, s: Book, doubtful: set<OutPoint>, more: set<OutPoint>)
    requires AllBacked(c, s, doubtful) && doubtful <= more
    ensures AllBacked(c, s, more)
  {
  }

  // ---------------------------------------------------------------- the indexer's invariant

  ghost predicate OnMain(g: Block, c: Columns, st: IndexState)
    requires Tree(g, c.blocks) && c.tip in c.blocks
  {
    st.number < |MainPath(g, c)| && MainPath(g, c)[st.number].hash == st.hash
  }

  /** A state points at a stored block whose chain can be scanned. */
  ghost predicate Placed(g: Block, blocks: map<Hash, Block>, st: IndexState)
    requires Tree(g, blocks)
  {
    st.hash in blocks && blocks[st.hash].number == st.number && ScanOk(Path(g, blocks, st.hash))
  }

  /** The rows of the lock are those of the chain up to its state, or none if it was never attached. */
  ghost predicate Exact(g: Block, blocks: map<Hash, Block>, x: Index, lock: Hash)
    requires Tree(g, blocks)
  {
    && lock in x.states && Placed(g, blocks, x.states[lock])
    && (Matches(x, lock, Scan(Path(g, blocks, x.states[lock].hash)), {}) ||
        (x.states[lock].number == 0 && Matches(x, lock, BLANK, {})))
  }

  /** Rows exist only for locks that have a state. */
  predicate Tidy(x: Index) {
    && (forall key :: key in x.live ==> key.lock in x.states)
    && (forall key :: key in x.txs ==> key.lock in x.states)
  }

  /** The rows are those of the book: all of them, or for a stray all but those of cells that genesis spent. */
  ghost predicate Held(gb: Book, x: Index, lock: Hash, s: Book, stray: bool) {
    && Matches(x, lock, s, gb.spent.Keys)
    && if stray then Haunted(gb, x, lock) else Matches(x, lock, s, {})
  }

  /** The rows are those of the chain up to the state, except for cells that genesis spent; one of these is wrong. */
  ghost predicate Stray(g: Block, blocks: map<Hash, Block>, x: Index, lock: Hash)
    requires Tree(g, blocks)
  {
    && lock in x.states && Placed(g, blocks, x.states[lock])
    && Held(Scan([g]), x, lock, Scan(Path(g, blocks, x.states[lock].hash)), true)
  }

  /** The invariant; the locks indexed from block 0 are either followed, with exact rows, or strays. */
  ghost predicate IndexOk(g: Block, u: Outputs, blocks: map<Hash, Block>, x: Index, followed: set<Hash>,
                          strays: set<Hash>)
    requires Tree(g, blocks)
  {
    && OpsKnown(u, x) && Tidy(x) && followed !! strays
    && (forall lock :: lock in x.states ==> Placed(g, blocks, x.states[lock]))
    && (forall lock :: lock in followed ==> Exact(g, blocks, x, lock))
    && (forall lock :: lock in strays ==> Stray(g, blocks, x, lock))
  }

  lemma {:induction false} MainPlaced(g: Block, u: Outputs, c: Columns, st: IndexState)
    requires Snapshot(g, u, c) && OnMain(g, c, st)
    ensures Placed(g, c.blocks, st) && Path(g, c.blocks, st.hash) == MainPath(g, c)[..st.number + 1]
  {
    hide MainChain.Agrees, ScanOk, Says;
    PathAt(g, c.blocks, c.tip, st.number);
    PathPrefix(g, c.blocks, c.tip, st.number);
    ScanPrefix(MainPath(g, c), st.number + 1);
  }

  lemma {:induction false} MainSays(g: Block, u: Outputs, c: Columns, h: Hash)
    requires Snapshot(g, u, c) && h in c.blocks
    ensures forall i :: 0 <= i < |Path(g, c.blocks, h)| ==> Says(u, Path(g, c.blocks, h)[i])
  {
    hide MainChain.Agrees, ScanOk, Says;
    forall i | 0 <= i < |Path(g, c.blocks, h)| ensures Says(u, Path(g, c.blocks, h)[i]) {
      PathAt(g, c.blocks, h, i);
    }
  }

  lemma {:induction false} NumberIndexIs(p: seq<Block>, h: Hash)
    ensures h in MainChain.NumberIndex(p) ==>
              exists n :: 0 <= n < |p| && p[n].hash == h && p[n].number == MainChain.NumberIndex(p)[h]
    ensures forall n :: 0 <= n < |p| ==> p[n].hash in MainChain.NumberIndex(p)
  {
    if p != [] {
      var q, b := p[..|p| - 1], p[|p| - 1];
      NumberIndexIs(q, h);
      assert b == p[|p| - 1];
    }
  }

  /** The number index tells whether a state is on the main chain. */
  lemma {:induction false} NumberTells(g: Block, u: Outputs, c: Columns, st: IndexState)
    requires Snapshot(g, u, c)
    ensures st.hash in c.numberOf && c.numberOf[st.hash] == st.number <==> OnMain(g, c, st)
  {
    var m := MainPath(g, c);
    NumberIndexIs(m, st.hash);
    if OnMain(g, c, st) {
      PathAt(g, c.blocks, c.tip, st.number);
      assert m[st.number].hash in MainChain.NumberIndex(m);
    }
  }

  lemma {:induction false} HashTells(g: Block, u: Outputs, c: Columns, st: IndexState)
    requires Snapshot(g, u, c)
    ensures st.number in c.hashOf && c.hashOf[st.number] == st.hash <==> OnMain(g, c, st)
  {
  }

  // ---------------------------------------------------------------- walking down

  /** Where a state is taken back to: the last block its chain shares with the main chain. */
  ghost function Back(g: Block, c: Columns, st: IndexState): IndexState
    requires Tree(g, c.blocks) && c.tip in c.blocks && st.hash in c.blocks
  {
    var k := Shared(Path(g, c.blocks, st.hash), MainPath(g, c));
    if OnMain(g, c, st) || k == 0 then st else IndexState(k - 1, MainPath(g, c)[k - 1].hash)
  }

  /** Taking the state back detaches a block that spends a cell of the lock again that genesis had spent. */
  ghost predicate Loses(g: Block, c: Columns, lock: Hash, st: IndexState)
    requires Tree(g, c.blocks) && c.tip in c.blocks && st.hash in c.blocks
  {
    var p := Path(g, c.blocks, st.hash);
    RespendsFrom(Scan([g]), p, Shared(p, MainPath(g, c)), lock)
  }

  /** The locks for which taking the states back does so. */
  ghost function Disturbed(g: Block, c: Columns, states: map<Hash, IndexState>): set<Hash>
    requires Tree(g, c.blocks) && c.tip in c.blocks
  {
    set lock | lock in states && states[lock].hash in c.blocks && Loses(g, c, lock, states[lock])
  }

  /**
    The rows of the lock are exact after a sync run: they were and the run does not disturb them, or
    the lock is back at block 0, because the batch then attaches genesis again, if it attaches anything.
   */
  ghost predicate EndsExact(g: Block, c: Columns, batch: nat, lock: Hash, st: IndexState, stray: bool)
    requires Tree(g, c.blocks) && c.tip in c.blocks && st.hash in c.blocks
  {
    !(stray || Loses(g, c, lock, st)) || (batch > 0 && Back(g, c, st).number == 0)
  }

  /** The locks for which that fails. */
  ghost function Lost(g: Block, c: Columns, batch: nat, states: map<Hash, IndexState>, strays: set<Hash>): set<Hash>
    requires Tree(g, c.blocks) && c.tip in c.blocks
  {
    set lock | lock in states && states[lock].hash in c.blocks &&
      !EndsExact(g, c, batch, lock, states[lock], lock in strays)
  }

  /** Disturbed locks that are left with a live row of a cell which genesis spent. */
  ghost function LeftLive(g: Block, c: Columns, batch: nat, states: map<Hash, IndexState>): set<Hash>
    requires Tree(g, c.blocks) && c.tip in c.blocks
  {
    set lock | lock in Disturbed(g, c, states) && (batch > 0 ==> Unhealed(g, c, lock, Back(g, c, states[lock])))
  }

  /** A batch that attaches blocks of the main chain above the state touches no cell of the lock that genesis spent. */
  ghost predicate Unhealed(g: Block, c: Columns, lock: Hash, st: IndexState)
    requires Tree(g, c.blocks) && c.tip in c.blocks
  {
    st.number > 0 && !RespendsFrom(Scan([g]), MainPath(g, c), st.number, lock)
  }

  lemma {:induction false} NoneLostOnMain(g: Block, c: Columns, lock: Hash, st: IndexState)
    requires Tree(g, c.blocks) && c.tip in c.blocks && st.hash in c.blocks && OnMain(g, c, st)
    requires c.blocks[st.hash].number == st.number
    ensures !Loses(g, c, lock, st)
  {
    var p, m := Path(g, c.blocks, st.hash), MainPath(g, c);
    MeetBelow(g, c.blocks, st.hash, c.tip, st.number);
  }

  ghost predicate TakenBack(g: Block, c: Columns, before: map<Hash, IndexState>, after: map<Hash, IndexState>)
    requires Tree(g, c.blocks) && c.tip in c.blocks
  {
    && after.Keys == before.Keys
    && forall lock :: lock in after ==> before[lock].hash in c.blocks && after[lock] == Back(g, c, before[lock])
  }

  /** Part of the way: the locks still to do are off the main chain as before, the others have been taken back. */
  ghost predicate Partly(g: Block, c: Columns, before: map<Hash, IndexState>, states: map<Hash, IndexState>,
                         todo: set<Hash>)
    requires Tree(g, c.blocks) && c.tip in c.blocks
  {
    && states.Keys == before.Keys && todo <= states.Keys
    && forall lock :: lock in states ==>
         && before[lock].hash in c.blocks
         && (lock in todo ==> states[lock] == before[lock] && !OnMain(g, c, states[lock]))
         && (lock !in todo ==> OnMain(g, c, states[lock]) && states[lock] == Back(g, c, before[lock]))
  }

  lemma {:induction false} PartlyStart(g: Block, u: Outputs, c: Columns, states: map<Hash, IndexState>, todo: set<Hash>)
    requires Tree(g, c.blocks) && c.tip in c.blocks && Snapshot(g, u, c)
    requires forall lock :: lock in states ==> Placed(g, c.blocks, states[lock])
    requires forall lock :: lock in todo <==>
               && lock in states
               && !(states[lock].hash in c.numberOf && c.numberOf[states[lock].hash] == states[lock].number)
    ensures Partly(g, c, states, states, todo)
  {
    hide Snapshot, Tree, Path, OnMain;
    forall lock | lock in states ensures lock in todo <==> !OnMain(g, c, states[lock]) {
      NumberTells(g, u, c, states[lock]);
    }
  }

  lemma {:induction false} PartlyStep(g: Block, c: Columns, before: map<Hash, IndexState>,
                                      states: map<Hash, IndexState>,
                                      todo: set<Hash>, lock: Hash, st: IndexState)
    requires Tree(g, c.blocks) && c.tip in c.blocks && Partly(g, c, before, states, todo) && lock in todo
    requires states[lock].hash in c.blocks && OnMain(g, c, st) && st == Back(g, c, states[lock])
    ensures Partly(g, c, before, states[lock := st], todo - {lock})
  {
    hide OnMain, Back;
  }

  /** The abandoned chain leaves the main chain above genesis and below its own end. */
  lemma {:induction false} Parts(g: Block, u: Outputs, c: Columns, st: IndexState)
    requires Snapshot(g, u, c) && Placed(g, c.blocks, st) && !OnMain(g, c, st)
    ensures var p, m := Path(g, c.blocks, st.hash), MainPath(g, c);
            0 < Shared(p, m) <= st.number && |p| == st.number + 1 && p[0] == g && g.number == 0
  {
    hide MainChain.Agrees, ScanOk, Says;
    var p, m := Path(g, c.blocks, st.hash), MainPath(g, c);
    MeetBelow(g, c.blocks, st.hash, c.tip, 0);
    if st.number < |m| { MeetBelow(g, c.blocks, st.hash, c.tip, st.number); }
  }

  /** While the parent is not on the main chain at its height, the walk goes on. */
  lemma {:induction false} WalkTest(g: Block, u: Outputs, c: Columns, h: Hash, i: nat)
    requires Snapshot(g, u, c) && h in c.blocks && 0 < i < |Path(g, c.blocks, h)|
    requires Shared(Path(g, c.blocks, h), MainPath(g, c)) <= i
    ensures var p, m := Path(g, c.blocks, h), MainPath(g, c);
            && p[i].number == i && p[i - 1].number == i - 1 && p[i].parent == p[i - 1].hash
            && p[i - 1].hash in c.blocks && c.blocks[p[i - 1].hash] == p[i - 1]
            && (i - 1 in c.hashOf && c.hashOf[i - 1] == p[i].parent <==> i == Shared(p, m))
  {
    var p, m := Path(g, c.blocks, h), MainPath(g, c);
    PathAt(g, c.blocks, h, i);
    PathAt(g, c.blocks, h, i - 1);
    HashTells(g, u, c, IndexState(i - 1, p[i - 1].hash));
    if i - 1 < |m| { MeetBelow(g, c.blocks, h, c.tip, i - 1); }
  }

  lemma {:induction false} SnapshotAnswers(g: Block, u: Outputs, c: Columns)
    requires Snapshot(g, u, c)
    ensures Answers(u, c)
  {
    hide MainChain.Agrees, ScanOk, Says, Answers;
    MainSays(g, u, c, c.tip);
    StoreAnswers(u, c, MainPath(g, c));
  }

  lemma {:induction false} ForkBacked(g: Block, u: Outputs, c: Columns, p: seq<Block>, k: nat)
    requires Snapshot(g, u, c) && k <= |p| && k <= |MainPath(g, c)| && p[..k] == MainPath(g, c)[..k]
    ensures AllBacked(c, Scan(p[..k]), {})
  {
    hide MainChain.Agrees, ScanOk, Says, AllBacked;
    MainBacked(c, MainPath(g, c), k);
  }

  lemma {:induction false} UnwindStep(u: Outputs, c: Columns, w: Index, x: Index, lock: Hash, p: seq<Block>, k: nat,
                                      i: nat, held: bool, stray: bool)
    requires 0 < k <= i < |p| && p[0].number == 0 && ScanOk(p) && AllBacked(c, Scan(p[..k]), {})
    requires (forall j :: 0 <= j < |p| ==> Says(u, p[j])) && OpsKnown(u, x) && (w == x || Within(u, {lock}, w, x))
    requires held ==> Unwound(p, k, i + 1, x, lock, stray)
    ensures var y := DetachTxs(x, {lock}, c, p[i], 0);
            && OpsKnown(u, y) && Within(u, {lock}, w, y)
            && (held ==> Unwound(p, k, i, y, lock, stray))
  {
    hide Unwound, OpsKnown, AllBacked, DetachTxs, Says, ScanOk;
    var y := DetachTxs(x, {lock}, c, p[i], 0);
    DetachWithin(u, {lock}, x, c, p[i], 0);
    if w != x { WithinTwice(u, {lock}, w, x, y); }
    if held { StepDown(u, c, x, lock, p, k, i, stray); }
  }

  lemma {:induction false} UnwindStart(x: Index, lock: Hash, p: seq<Block>, k: nat, stray: bool)
    requires k <= |p| && p != [] && Held(Scan(p[..1]), x, lock, Scan(p), stray)
    ensures Unwound(p, k, |p|, x, lock, stray)
  {
    hide Matches, Haunted, LiveAgain, Respends;
    assert p[..|p|] == p;
    NoDoubt(x, lock, p, k);
    LessSure(x, lock, Scan(p), Scan(p[..1]).spent.Keys, Doubtful(p, k) + Scan(p[..1]).spent.Keys);
  }

  lemma {:induction false} UnwindEnd(x: Index, lock: Hash, p: seq<Block>, k: nat, stray: bool)
    requires k <= |p| && p != [] && Unwound(p, k, k, x, lock, stray)
    ensures var gb := Scan(p[..1]);
            && Held(gb, x, lock, Scan(p[..k]), stray || RespendsFrom(gb, p, k, lock))
            && (RespendsFrom(gb, p, k, lock) ==> LiveAgain(gb, x, lock))
  {
    hide Matches, Haunted, RespendsFrom, LiveAgain;
    NoDoubt(x, lock, p, k);
    var again := Scan(p[..1]).spent.Keys;
    LessSure(x, lock, Scan(p[..k]), Doubtful(p, k) + again, again);
  }

  // ---------------------------------------------------------------- locks that are lost

  lemma {:induction false} LostOffMain(g: Block, c: Columns, states: map<Hash, IndexState>, todo: set<Hash>)
    requires Tree(g, c.blocks) && c.tip in c.blocks && Partly(g, c, states, states, todo)
    requires forall lock :: lock in states ==> Placed(g, c.blocks, states[lock])
    ensures Disturbed(g, c, states) <= todo
  {
    hide Tree, Path, OnMain, Loses, Back;
    forall lock | lock in Disturbed(g, c, states) ensures lock in todo {
      if lock !in todo {
        PlacedNumber(g, c.blocks, states[lock]);
        NoneLostOnMain(g, c, lock, states[lock]);
      }
    }
  }

  lemma {:induction false} PlacedNumber(g: Block, blocks: map<Hash, Block>, st: IndexState)
    requires Tree(g, blocks) && Placed(g, blocks, st)
    ensures st.hash in blocks && blocks[st.hash].number == st.number
  {
  }

  lemma {:induction false} AllPlaced(g: Block, u: Outputs, blocks: map<Hash, Block>, x: Index, followed: set<Hash>,
                                     strays: set<Hash>)
    requires Tree(g, blocks) && IndexOk(g, u, blocks, x, followed, strays)
    ensures forall lock :: lock in x.states ==> Placed(g, blocks, x.states[lock])
  {
    hide Placed, OpsKnown, Tidy, Exact, Stray;
  }

  lemma {:induction false} PartlyEnd(g: Block, c: Columns, before: map<Hash, IndexState>, states: map<Hash, IndexState>)
    requires Tree(g, c.blocks) && c.tip in c.blocks && Partly(g, c, before, states, {})
    ensures states.Keys == before.Keys && TakenBack(g, c, before, states)
    ensures forall lock :: lock in states ==> OnMain(g, c, states[lock])
  {
    hide OnMain, Back;
  }

  lemma {:induction false} LostHere(g: Block, c: Columns, before: map<Hash, IndexState>, states: map<Hash, IndexState>,
                                    todo: set<Hash>, lock: Hash)
    requires Tree(g, c.blocks) && c.tip in c.blocks && Partly(g, c, before, states, todo) && lock in todo
    ensures lock in states && states[lock].hash in c.blocks && !OnMain(g, c, states[lock])
    ensures lock in Disturbed(g, c, before) <==> Loses(g, c, lock, states[lock])
  {
    hide Loses, OnMain, Back;
  }

  lemma {:induction false} IsPlaced(g: Block, u: Outputs, blocks: map<Hash, Block>, x: Index, followed: set<Hash>,
                                    strays: set<Hash>, lock: Hash)
    requires Tree(g, blocks) && IndexOk(g, u, blocks, x, followed, strays) && lock in x.states
    ensures Placed(g, blocks, x.states[lock]) && OpsKnown(u, x) && followed !! strays
  {
  }

  lemma {:induction false} IsDisjoint(g: Block, u: Outputs, blocks: map<Hash, Block>, x: Index, followed: set<Hash>,
                                      strays: set<Hash>)
    requires Tree(g, blocks) && IndexOk(g, u, blocks, x, followed, strays)
    ensures followed !! strays
  {
  }

  lemma {:induction false} HeldFrame(gb: Book, x: Index, y: Index, lock: Hash, s: Book, stray: bool)
    requires Held(gb, x, lock, s, stray) && Untouched(x, y, lock)
    ensures Held(gb, y, lock, s, stray)
  {
    hide Matches, Haunted, Untouched;
    MatchesFrame(x, y, lock, s, gb.spent.Keys);
    if stray { HauntedFrame(gb, x, y, lock); } else { MatchesFrame(x, y, lock, s, {}); }
  }

  lemma {:induction false} ExactIsHeld(gb: Book, x: Index, lock: Hash, s: Book)
    requires Matches(x, lock, s, {})
    ensures Held(gb, x, lock, s, false)
  {
    hide Matches;
    LessSure(x, lock, s, {}, gb.spent.Keys);
  }

  lemma {:induction false} HauntedFrame(gb: Book, x: Index, y: Index, lock: Hash)
    requires Haunted(gb, x, lock) && Untouched(x, y, lock)
    ensures Haunted(gb, y, lock)
  {
    var op :| SpentCell(gb, lock, op) && Off(x, KeyOf(gb, op));
    assert Same(x.live, y.live, KeyOf(gb, op)) && Same(x.txs, y.txs, KeyOf(gb, op));
  }

  lemma {:induction false} LiveFrame(gb: Book, x: Index, y: Index, lock: Hash)
    requires LiveAgain(gb, x, lock) && Untouched(x, y, lock)
    ensures LiveAgain(gb, y, lock)
  {
    var op :| SpentCell(gb, lock, op) && KeyOf(gb, op) in x.live;
    assert Same(x.live, y.live, KeyOf(gb, op));
  }

  lemma {:induction false} SameButStates(x: Index, states: map<Hash, IndexState>, lock: Hash)
    ensures Untouched(x, x.(states := states), lock)
  {
  }

  /** A lock off the main chain that was indexed from block 0 holds the rows of its chain. */
  lemma {:induction false} HeldOff(g: Block, u: Outputs, c: Columns, x: Index, followed: set<Hash>, strays: set<Hash>,
                                   lock: Hash)
    requires Tree(g, c.blocks) && c.tip in c.blocks && IndexOk(g, u, c.blocks, x, followed, strays)
    requires lock in followed + strays
    requires lock in x.states && x.states[lock].hash in c.blocks && !OnMain(g, c, x.states[lock])
    ensures Held(Scan([g]), x, lock, Scan(Path(g, c.blocks, x.states[lock].hash)), lock in strays)
  {
    hide Matches, Haunted, Scan;
    if lock in strays {
      assert Stray(g, c.blocks, x, lock);
    } else {
      assert Exact(g, c.blocks, x, lock);
      GenesisOnMain(g, c, x.states[lock]);
      ExactIsHeld(Scan([g]), x, lock, Scan(Path(g, c.blocks, x.states[lock].hash)));
    }
  }

  lemma {:induction false} LostSets(all: set<Hash>, wild: set<Hash>, lost: set<Hash>, todo: set<Hash>, lock: Hash,
                                    before: set<Hash>, after: set<Hash>)
    requires lock in todo && before == all - (lost - todo) && after == if lock in lost then before - {lock} else before
    ensures after == all - (lost - (todo - {lock}))
    ensures all * (lost - (todo - {lock})) == all * (lost - todo) + (before - after)
    ensures wild + all * (lost - (todo - {lock})) == wild + all * (lost - todo) + (before - after)
  {
  }

  ghost predicate AllLive(gb: Book, x: Index, locks: set<Hash>) {
    forall lock :: lock in locks ==> LiveAgain(gb, x, lock)
  }

  lemma {:induction false} NoneLive(gb: Book, x: Index)
    ensures AllLive(gb, x, {})
  {
  }

  /** Wrong live rows of other locks stay while one lock is taken back, and those that this leaves join them. */
  lemma {:induction false} LiveElsewhere(gb: Book, u: Outputs, x: Index, y: Index, lock: Hash, done: set<Hash>,
                                         more: set<Hash>, states: map<Hash, IndexState>)
    requires AllLive(gb, x, done) && Within(u, {lock}, x, y) && lock !in done
    requires more <= {lock} && (lock in more ==> LiveAgain(gb, y, lock))
    ensures AllLive(gb, y.(states := states), done + more)
  {
    hide LiveAgain, OpsKnown;
    forall other | other in done + more ensures LiveAgain(gb, y.(states := states), other) {
      if other in done {
        assert Untouched(x, y, other);
        LiveFrame(gb, x, y, other);
      }
      SameButStates(y, states, other);
      LiveFrame(gb, y, y.(states := states), other);
    }
  }

  // ---------------------------------------------------------------- attaching a height

  function Behind(states: map<Hash, IndexState>, n: nat): set<Hash> {
    set lock | lock in states && states[lock].number <= n
  }

  function Advance(states: map<Hash, IndexState>, n: nat, h: Hash): map<Hash, IndexState> {
    map lock | lock in states :: if states[lock].number <= n then IndexState(n, h) else states[lock]
  }

  ghost predicate LockLevel(m: seq<Block>, x: Index, states: map<Hash, IndexState>, n: nat, lock: Hash) {
    && lock in states && states[lock].number < |m|
    && (Matches(x, lock, Scan(m[..states[lock].number + 1]), {}) ||
        (n == 0 && states[lock].number == 0 && BeforeGenesis(m, x, lock)))
  }

  /** What attaching genesis makes exact: no rows, or rows that are right except for cells that genesis spent. */
  ghost predicate BeforeGenesis(m: seq<Block>, x: Index, lock: Hash)
    requires m != []
  {
    Matches(x, lock, BLANK, {}) || Matches(x, lock, Scan(m[..1]), Scan(m[..1]).spent.Keys)
  }

  ghost predicate StrayLevel(g: Block, m: seq<Block>, x: Index, states: map<Hash, IndexState>, lock: Hash) {
    && lock in states && 0 < states[lock].number < |m|
    && Held(Scan([g]), x, lock, Scan(m[..states[lock].number + 1]), true)
  }

  /** Before height n is attached: no state lags behind, and all locks indexed from block 0 are up to their states. */
  ghost predicate Level(g: Block, u: Outputs, c: Columns, x: Index, states: map<Hash, IndexState>,
                        followed: set<Hash>, strays: set<Hash>, n: nat)
    requires Tree(g, c.blocks) && c.tip in c.blocks
  {
    && OpsKnown(u, x)
    && (forall lock :: lock in states ==> OnMain(g, c, states[lock]) && states[lock].number + 1 >= n)
    && (forall lock :: lock in followed ==> LockLevel(MainPath(g, c), x, states, n, lock))
    && (forall lock :: lock in strays ==> StrayLevel(g, MainPath(g, c), x, states, lock))
  }

  lemma {:induction false} LockStep(u: Outputs, x: Index, states: map<Hash, IndexState>, m: seq<Block>, n: nat,
                                    lock: Hash)
    requires ScanOk(m) && n < |m| && OpsKnown(u, x) && (forall i :: 0 <= i < |m| ==> Says(u, m[i]))
    requires LockLevel(m, x, states, n, lock) && states[lock].number + 1 >= n
    ensures LockLevel(m, AttachTxs(x, Behind(states, n), m[n], |m[n].txs|), Advance(states, n, m[n].hash), n + 1, lock)
  {
    hide Matches, OpsKnown, AttachTxs, Says, ScanOk, Scan, BlockOuts;
    var locks, k := Behind(states, n), states[lock].number;
    if k > n {
      AttachLeaves(u, x, locks, m[n], lock, Scan(m[..k + 1]), {});
    } else if Matches(x, lock, Scan(m[..k + 1]), {}) {
      assert {} - BlockOuts(m[n], |m[n].txs|) == {};
      if k == n { AttachAgain(u, x, m, n, {}, locks, lock); } else { AttachNext(u, x, m, n, {}, locks, lock); }
    } else if Matches(x, lock, BLANK, {}) {
      assert {} - BlockOuts(m[n], |m[n].txs|) == {};
      assert Scan(m[..n]) == BLANK by { BlankIsScan(m); }
      AttachNext(u, x, m, n, {}, locks, lock);
    } else {
      SpentByGenesis(m);
      AttachAgain(u, x, m, n, Scan(m[..1]).spent.Keys, locks, lock);
      assert Scan(m[..1]).spent.Keys - BlockOuts(m[n], |m[n].txs|) == {};
    }
  }

  lemma {:induction false} CreatedOuts(s: Book, b: Block, k: nat)
    requires k <= |b.txs|
    ensures BookTxs(s, b, k).created.Keys <= s.created.Keys + BlockOuts(b, k)
  {
    if k > 0 {
      CreatedOuts(s, b, k - 1);
      var t, tx := BookTxs(s, b, k - 1), b.txs[k - 1];
      InputsCreateNothing(t, b.number, tx, SpendCount(tx));
      forall op | op in BookTxs(s, b, k).created ensures op in t.created || op in OutOps(tx, |tx.outputs|) {
        OutputsCreate(BookInputs(t, b.number, tx, SpendCount(tx)), b.number, tx, |tx.outputs|, op);
      }
    }
  }

  lemma {:induction false} SpentByGenesis(m: seq<Block>)
    requires ScanOk(m) && m != []
    ensures Scan(m[..1]).spent.Keys <= BlockOuts(m[0], |m[0].txs|)
  {
    ScanPrefix(m, 1);
    ScanStep(m, 0);
    BlankIsScan(m);
    CreatedOuts(BLANK, m[0], |m[0].txs|);
  }

  lemma {:induction false} AttachAgain(u: Outputs, x: Index, m: seq<Block>, n: nat, doubtful: set<OutPoint>,
                                       locks: set<Hash>, lock: Hash)
    requires ScanOk(m) && n < |m| && OpsKnown(u, x) && (forall i :: 0 <= i < |m| ==> Says(u, m[i])) && lock in locks
    requires Matches(x, lock, Scan(m[..n + 1]), doubtful)
    ensures Matches(AttachTxs(x, locks, m[n], |m[n].txs|), lock, Scan(m[..n + 1]),
                    doubtful - BlockOuts(m[n], |m[n].txs|))
  {
    hide Matches, OpsKnown, BookKnown, TxsFit, BookOk, AttachTxs, Says, ScanOk, Scan, InputsFit, Admission.Ordered,
         BlockOuts;
    ScanStep(m, n);
    ScanKnown(u, m[..n + 1]);
    AttachTwice(u, x, lock, Scan(m[..n]), doubtful, locks, m[n]);
  }

  lemma {:induction false} AttachNext(u: Outputs, x: Index, m: seq<Block>, n: nat, doubtful: set<OutPoint>,
                                      locks: set<Hash>, lock: Hash)
    requires ScanOk(m) && n < |m| && OpsKnown(u, x) && (forall i :: 0 <= i < |m| ==> Says(u, m[i])) && lock in locks
    requires Matches(x, lock, Scan(m[..n]), doubtful)
    ensures Matches(AttachTxs(x, locks, m[n], |m[n].txs|), lock, Scan(m[..n + 1]),
                    doubtful - BlockOuts(m[n], |m[n].txs|))
  {
    hide Matches, OpsKnown, BookKnown, TxsFit, BookOk, AttachTxs, Says, ScanOk, Scan, InputsFit, Admission.Ordered,
         BlockOuts;
    ScanStep(m, n);
    ScanKnown(u, m[..n]);
    AttachFirst(u, x, lock, Scan(m[..n]), doubtful, locks, m[n]);
  }

  /** A stray stays one: attaching a block after genesis puts no row of a cell that genesis spent right. */
  lemma {:induction false} StrayStep(g: Block, u: Outputs, c: Columns, x: Index, states: map<Hash, IndexState>, n: nat,
                                     lock: Hash)
    requires Snapshot(g, u, c) && n < |MainPath(g, c)| && OpsKnown(u, x)
    requires StrayLevel(g, MainPath(g, c), x, states, lock) && states[lock].number + 1 >= n
    ensures var b := MainPath(g, c)[n];
            StrayLevel(g, MainPath(g, c), AttachTxs(x, Behind(states, n), b, |b.txs|), Advance(states, n, b.hash), lock)
  {
    hide Matches, OpsKnown, AttachTxs, Says, Scan, Haunted, BlockOuts, MainChain.Agrees;
    var m, locks, k, again := MainPath(g, c), Behind(states, n), states[lock].number, Scan([g]).spent.Keys;
    MainSays(g, u, c, c.tip);
    WrongRow(g, u, c, x, locks, n, lock);
    var y := AttachTxs(x, locks, m[n], |m[n].txs|);
    if k > n {
      AttachLeaves(u, x, locks, m[n], lock, Scan(m[..k + 1]), again);
    } else {
      if k == n { AttachAgain(u, x, m, n, again, locks, lock); } else { AttachNext(u, x, m, n, again, locks, lock); }
      LessSure(y, lock, Scan(m[..n + 1]), again - BlockOuts(m[n], |m[n].txs|), again);
    }
  }

  lemma {:induction false} BlankIsScan(m: seq<Block>)
    ensures Scan(m[..0]) == BLANK
  {
  }

  lemma {:induction false} AttachLeaves(u: Outputs, x: Index, locks: set<Hash>, b: Block, lock: Hash, s: Book,
                                        doubtful: set<OutPoint>)
    requires OpsKnown(u, x) && Says(u, b) && lock !in locks && Matches(x, lock, s, doubtful)
    ensures Matches(AttachTxs(x, locks, b, |b.txs|), lock, s, doubtful)
  {
    hide OpsKnown, Matches, Untouched;
    AttachWithin(u, locks, x, b, |b.txs|);
    MatchesFrame(x, AttachTxs(x, locks, b, |b.txs|), lock, s, doubtful);
  }

  lemma {:induction false} LevelStep(g: Block, u: Outputs, c: Columns, x: Index, states: map<Hash, IndexState>,
                                     followed: set<Hash>, strays: set<Hash>, n: nat)
    requires Snapshot(g, u, c) && n < |MainPath(g, c)| && Level(g, u, c, x, states, followed, strays, n)
    ensures var b := MainPath(g, c)[n];
            var y := AttachTxs(x, Behind(states, n), b, |b.txs|);
            Level(g, u, c, y, Advance(states, n, b.hash), followed, strays, n + 1)
  {
    hide MainChain.Agrees, ScanOk, Says, OpsKnown, LockLevel, StrayLevel;
    var m := MainPath(g, c);
    MainSays(g, u, c, c.tip);
    AttachKnown(u, Behind(states, n), x, m[n]);
    var y, states' := AttachTxs(x, Behind(states, n), m[n], |m[n].txs|), Advance(states, n, m[n].hash);
    forall lock | lock in followed ensures LockLevel(m, y, states', n + 1, lock) {
      assert lock in states by { LevelHas(m, x, states, n, lock); }
      LockStep(u, x, states, m, n, lock);
    }
    forall lock | lock in strays ensures StrayLevel(g, m, y, states', lock) {
      assert lock in states by { StrayHas(g, m, x, states, lock); }
      StrayStep(g, u, c, x, states, n, lock);
    }
  }

  lemma {:induction false} StrayHas(g: Block, m: seq<Block>, x: Index, states: map<Hash, IndexState>, lock: Hash)
    requires StrayLevel(g, m, x, states, lock)
    ensures lock in states
  {
  }

  lemma {:induction false} LevelHas(m: seq<Block>, x: Index, states: map<Hash, IndexState>, n: nat, lock: Hash)
    requires LockLevel(m, x, states, n, lock)
    ensures lock in states
  {
  }

  lemma {:induction false} AttachKnown(u: Outputs, locks: set<Hash>, x: Index, b: Block)
    requires OpsKnown(u, x) && Says(u, b)
    ensures OpsKnown(u, AttachTxs(x, locks, b, |b.txs|))
  {
    AttachWithin(u, locks, x, b, |b.txs|);
  }

  // ---------------------------------------------------------------- the invariant over a sync run

  lemma {:induction false} MatchesStates(x: Index, states: map<Hash, IndexState>, lock: Hash, s: Book)
    ensures Matches(x, lock, s, {}) <==> Matches(x.(states := states), lock, s, {})
  {
    var y := x.(states := states);
    if Matches(x, lock, s, {}) { MatchesFrame(x, y, lock, s, {}); }
    if Matches(y, lock, s, {}) { MatchesFrame(y, x, lock, s, {}); }
  }

  /** Rows of a lock without a state do not appear out of nothing. */
  lemma {:induction false} TidyWithin(u: Outputs, locks: set<Hash>, x: Index, y: Index, states: map<Hash, IndexState>)
    requires Tidy(x) && Within(u, locks, x, y) && locks <= x.states.Keys && states.Keys == x.states.Keys
    ensures Tidy(y.(states := states))
  {
    forall key | key in y.live ensures key.lock in states {
      if key.lock !in locks { assert Untouched(x, y, key.lock); }
    }
    forall key | key in y.txs ensures key.lock in states {
      if key.lock !in locks { assert Untouched(x, y, key.lock); }
    }
  }

  lemma {:induction false} SameStates(u: Outputs, locks: set<Hash>, x: Index, y: Index)
    requires Within(u, locks, x, y)
    ensures y.states == x.states
  {
  }

  lemma {:induction false} GenesisOnMain(g: Block, c: Columns, st: IndexState)
    requires Tree(g, c.blocks) && c.tip in c.blocks && Placed(g, c.blocks, st)
    ensures st.number == 0 ==> OnMain(g, c, st)
  {
  }

  lemma {:induction false} ExactKept(g: Block, u: Outputs, blocks: map<Hash, Block>, x: Index, y: Index, lock: Hash,
                                     other: Hash, st: IndexState)
    requires Tree(g, blocks) && Exact(g, blocks, x, other) && Within(u, {lock}, x, y) && other != lock
    ensures Exact(g, blocks, y.(states := x.states[lock := st]), other)
  {
    hide Matches, Untouched, Placed;
    assert Untouched(x, y, other);
    PlacedStored(g, blocks, x.states[other]);
    var s := Scan(Path(g, blocks, x.states[other].hash));
    if Matches(x, other, s, {}) { MatchesFrame(x, y, other, s, {}); }
    if Matches(x, other, BLANK, {}) { MatchesFrame(x, y, other, BLANK, {}); }
    MatchesStates(y, x.states[lock := st], other, s);
    MatchesStates(y, x.states[lock := st], other, BLANK);
  }

  lemma {:induction false} PlacedStored(g: Block, blocks: map<Hash, Block>, st: IndexState)
    requires Tree(g, blocks)
    ensures Placed(g, blocks, st) ==> st.hash in blocks
  {
  }

  /** What the rows of the lock are after its state is taken back to st. */
  ghost predicate BackAt(g: Block, c: Columns, x: Index, lock: Hash, st: IndexState, stray: bool, loses: bool)
    requires Tree(g, c.blocks) && c.tip in c.blocks && OnMain(g, c, st)
  {
    && Held(Scan([g]), x, lock, Scan(MainPath(g, c)[..st.number + 1]), stray || loses)
    && (loses ==> LiveAgain(Scan([g]), x, lock))
  }

  lemma {:induction false} BackLive(g: Block, c: Columns, x: Index, lock: Hash, st: IndexState, stray: bool)
    requires Tree(g, c.blocks) && c.tip in c.blocks && OnMain(g, c, st) && BackAt(g, c, x, lock, st, stray, true)
    ensures LiveAgain(Scan([g]), x, lock)
  {
  }

  lemma {:induction false} StrayKept(g: Block, u: Outputs, blocks: map<Hash, Block>, x: Index, y: Index, lock: Hash,
                                     other: Hash, st: IndexState)
    requires Tree(g, blocks) && Stray(g, blocks, x, other) && Within(u, {lock}, x, y) && other != lock
    ensures Stray(g, blocks, y.(states := x.states[lock := st]), other)
  {
    hide Held, Untouched, Placed;
    assert Untouched(x, y, other);
    PlacedStored(g, blocks, x.states[other]);
    var s, states := Scan(Path(g, blocks, x.states[other].hash)), x.states[lock := st];
    HeldFrame(Scan([g]), x, y, other, s, true);
    SameButStates(y, states, other);
    HeldFrame(Scan([g]), y, y.(states := states), other, s, true);
  }

  /** Unwinding one lock keeps the invariant; a followed lock that loses becomes a stray. */
  lemma {:induction false} UnwindKeeps(g: Block, u: Outputs, c: Columns, x: Index, y: Index, lock: Hash,
                                       st: IndexState, followed: set<Hash>, strays: set<Hash>, loses: bool)
    requires Tree(g, c.blocks) && c.tip in c.blocks && Snapshot(g, u, c)
    requires IndexOk(g, u, c.blocks, x, followed, strays)
    requires lock in x.states && !OnMain(g, c, x.states[lock]) && OnMain(g, c, st) && Within(u, {lock}, x, y)
    requires lock in followed + strays ==> BackAt(g, c, y, lock, st, lock in strays, loses)
    ensures var more := if loses then followed * {lock} else {};
            IndexOk(g, u, c.blocks, y.(states := x.states[lock := st]), followed - more, strays + more)
  {
    hide Snapshot, Held, Placed, Tree, Path, OnMain, OpsKnown, Tidy, Exact, Stray, BackAt;
    var z := y.(states := x.states[lock := st]);
    TidyWithin(u, {lock}, x, y, z.states);
    MainPlaced(g, u, c, st);
    KnownStates(u, y, z.states);
    forall other | other in followed && other != lock ensures Exact(g, c.blocks, z, other) {
      ExactKept(g, u, c.blocks, x, y, lock, other, st);
    }
    forall other | other in strays && other != lock ensures Stray(g, c.blocks, z, other) {
      StrayKept(g, u, c.blocks, x, y, lock, other, st);
    }
    if lock in followed + strays { UnwoundLock(g, u, c, x, y, lock, st, lock in strays, loses); }
  }

  lemma {:induction false} KnownStates(u: Outputs, x: Index, states: map<Hash, IndexState>)
    requires OpsKnown(u, x)
    ensures OpsKnown(u, x.(states := states))
  {
  }

  lemma {:induction false} UnwoundLock(g: Block, u: Outputs, c: Columns, x: Index, y: Index, lock: Hash,
                                       st: IndexState, stray: bool, loses: bool)
    requires Tree(g, c.blocks) && c.tip in c.blocks && Snapshot(g, u, c) && lock in x.states && OnMain(g, c, st)
    requires BackAt(g, c, y, lock, st, stray, loses)
    ensures var z := y.(states := x.states[lock := st]);
            if stray || loses then Stray(g, c.blocks, z, lock) else Exact(g, c.blocks, z, lock)
  {
    hide Snapshot, Matches, Placed, Tree, Path, Haunted;
    MainPlaced(g, u, c, st);
    SameButStates(y, x.states[lock := st], lock);
    HeldFrame(Scan([g]), y, y.(states := x.states[lock := st]), lock, Scan(MainPath(g, c)[..st.number + 1]),
              stray || loses);
  }

  lemma {:induction false} FirstOfMain(g: Block, c: Columns)
    requires Tree(g, c.blocks) && c.tip in c.blocks
    ensures MainPath(g, c) != [] && MainPath(g, c)[..1] == [g]
  {
  }

  lemma {:induction false} LevelStart(g: Block, u: Outputs, c: Columns, x: Index, followed: set<Hash>,
                                      strays: set<Hash>, healing: set<Hash>, n: nat)
    requires Tree(g, c.blocks) && c.tip in c.blocks && Snapshot(g, u, c)
    requires IndexOk(g, u, c.blocks, x, followed, strays) && healing <= strays
    requires forall lock :: lock in healing ==> lock in x.states && x.states[lock].number == 0
    requires forall lock :: lock in strays - healing && lock in x.states ==> x.states[lock].number > 0
    requires forall lock :: lock in x.states ==> OnMain(g, c, x.states[lock]) && x.states[lock].number + 1 >= n
    requires n == 0 || forall lock :: lock in x.states ==> x.states[lock].number > 0
    ensures Level(g, u, c, x, x.states, followed + healing, strays - healing, n)
  {
    hide Snapshot, Matches, Placed, Tree, Path, OpsKnown, Tidy, LockLevel, Exact, Scan, OnMain, Stray, StrayLevel;
    forall lock | lock in followed + healing ensures LockLevel(MainPath(g, c), x, x.states, n, lock) {
      if lock in followed {
        FollowedLevel(g, u, c, x, n, lock);
      } else {
        HealingLevel(g, u, c, x, n, lock);
      }
    }
    forall lock | lock in strays - healing ensures StrayLevel(g, MainPath(g, c), x, x.states, lock) {
      StrayOnMain(g, u, c, x, lock);
    }
  }

  lemma {:induction false} StrayOnMain(g: Block, u: Outputs, c: Columns, x: Index, lock: Hash)
    requires Tree(g, c.blocks) && c.tip in c.blocks && Snapshot(g, u, c) && Stray(g, c.blocks, x, lock)
    requires lock in x.states ==> OnMain(g, c, x.states[lock]) && x.states[lock].number > 0
    ensures StrayLevel(g, MainPath(g, c), x, x.states, lock)
  {
    hide Snapshot, Held, Placed, Tree, Path, Scan;
    MainPlaced(g, u, c, x.states[lock]);
  }

  lemma {:induction false} FollowedLevel(g: Block, u: Outputs, c: Columns, x: Index, n: nat, lock: Hash)
    requires Tree(g, c.blocks) && c.tip in c.blocks && Snapshot(g, u, c) && Exact(g, c.blocks, x, lock)
    requires lock in x.states ==> OnMain(g, c, x.states[lock]) && (n == 0 || x.states[lock].number > 0)
    ensures LockLevel(MainPath(g, c), x, x.states, n, lock)
  {
    hide Snapshot, Matches, Placed, Tree, Path, Scan;
    MainPlaced(g, u, c, x.states[lock]);
  }

  lemma {:induction false} HealingLevel(g: Block, u: Outputs, c: Columns, x: Index, n: nat, lock: Hash)
    requires Tree(g, c.blocks) && c.tip in c.blocks && Snapshot(g, u, c) && lock in x.states && n == 0
    requires x.states[lock].number == 0 && OnMain(g, c, x.states[lock]) && Stray(g, c.blocks, x, lock)
    ensures LockLevel(MainPath(g, c), x, x.states, n, lock)
  {
    hide Snapshot, Matches, Scan, Tree, Path, Placed, Haunted;
    FirstOfMain(g, c);
    MainPlaced(g, u, c, x.states[lock]);
  }

  lemma {:induction false} LockEnd(g: Block, u: Outputs, c: Columns, x: Index, states: map<Hash, IndexState>, n: nat,
                                   lock: Hash)
    requires Tree(g, c.blocks) && c.tip in c.blocks && Snapshot(g, u, c) && n > 0
    requires LockLevel(MainPath(g, c), x, states, n, lock) && OnMain(g, c, states[lock])
    ensures Exact(g, c.blocks, x.(states := states), lock)
    ensures Matches(x.(states := states), lock, Scan(MainPath(g, c)[..states[lock].number + 1]), {})
  {
    hide Snapshot, Matches, Tree, Path, Placed, OnMain;
    MainPlaced(g, u, c, states[lock]);
    MatchesStates(x, states, lock, Scan(MainPath(g, c)[..states[lock].number + 1]));
  }

  /** All locks with exact rows of the main chain up to their states. */
  ghost predicate UpToDate(g: Block, c: Columns, x: Index, followed: set<Hash>)
    requires Tree(g, c.blocks) && c.tip in c.blocks
  {
    forall lock :: lock in followed ==>
      && lock in x.states && OnMain(g, c, x.states[lock])
      && Matches(x, lock, Scan(MainPath(g, c)[..x.states[lock].number + 1]), {})
  }

  lemma {:induction false} LevelEnd(g: Block, u: Outputs, c: Columns, x: Index, states: map<Hash, IndexState>,
                                    followed: set<Hash>, strays: set<Hash>, n: nat)
    requires Tree(g, c.blocks) && c.tip in c.blocks && Snapshot(g, u, c)
    requires Level(g, u, c, x, states, followed, strays, n) && followed !! strays
    requires Tidy(x.(states := states)) && n > 0
    ensures IndexOk(g, u, c.blocks, x.(states := states), followed, strays)
    ensures forall lock :: lock in states ==> OnMain(g, c, states[lock])
    ensures UpToDate(g, c, x.(states := states), followed)
  {
    hide Snapshot, Matches, Tree, Path, OpsKnown, Tidy, Placed, Exact, LockLevel, StrayLevel, Stray;
    KnownStates(u, x, states);
    forall lock | lock in states ensures Placed(g, c.blocks, states[lock]) { MainPlaced(g, u, c, states[lock]); }
    forall lock | lock in followed
      ensures Exact(g, c.blocks, x.(states := states), lock)
      ensures lock in states && OnMain(g, c, states[lock])
      ensures Matches(x.(states := states), lock, Scan(MainPath(g, c)[..states[lock].number + 1]), {})
    {
      LevelHas(MainPath(g, c), x, states, n, lock);
      LockEnd(g, u, c, x, states, n, lock);
    }
    forall lock | lock in strays ensures Stray(g, c.blocks, x.(states := states), lock) {
      StrayHas(g, MainPath(g, c), x, states, lock);
      StrayEnd(g, u, c, x, states, lock);
    }
  }

  lemma {:induction false} StrayEnd(g: Block, u: Outputs, c: Columns, x: Index, states: map<Hash, IndexState>,
                                    lock: Hash)
    requires Tree(g, c.blocks) && c.tip in c.blocks && Snapshot(g, u, c)
    requires StrayLevel(g, MainPath(g, c), x, states, lock) && OnMain(g, c, states[lock])
    ensures Stray(g, c.blocks, x.(states := states), lock)
  {
    hide Snapshot, Held, Tree, Path, Placed, OnMain, Scan;
    MainPlaced(g, u, c, states[lock]);
    SameButStates(x, states, lock);
    HeldFrame(Scan([g]), x, x.(states := states), lock, Scan(MainPath(g, c)[..states[lock].number + 1]), true);
  }

  lemma {:induction false} MainAt(g: Block, u: Outputs, c: Columns, n: nat)
    requires Snapshot(g, u, c) && n < |MainPath(g, c)|
    ensures n in c.hashOf && c.hashOf[n] in c.blocks && c.blocks[c.hashOf[n]] == MainPath(g, c)[n]
    ensures Says(u, MainPath(g, c)[n])
  {
    PathAt(g, c.blocks, c.tip, n);
  }

  /** A lock that had fewer blocks than `reach` has them now; the others stay where they were. */
  predicate Advanced(before: map<Hash, IndexState>, after: map<Hash, IndexState>, reach: nat) {
    && after.Keys == before.Keys
    && forall lock :: lock in after ==>
         after[lock].number == if before[lock].number + 1 >= reach then before[lock].number else reach - 1
  }

  lemma {:induction false} AdvancedMore(before: map<Hash, IndexState>, states: map<Hash, IndexState>, n: nat, h: Hash)
    requires Advanced(before, states, n)
    ensures Advanced(before, Advance(states, n, h), n + 1)
  {
  }

  predicate Lowest(states: map<Hash, IndexState>, lo: nat) {
    && (forall lock :: lock in states ==> states[lock].number >= lo)
    && (exists lock :: lock in states && states[lock].number == lo)
  }

  /** The height a batch starts at; genesis is attached again as long as a lock is at block 0. */
  function Start(lo: nat): nat {
    if lo == 0 then 0 else lo + 1
  }

  lemma {:induction false} StartFits(states: map<Hash, IndexState>, lo: nat)
    requires Lowest(states, lo)
    ensures forall lock :: lock in states ==> states[lock].number + 1 >= Start(lo)
    ensures Start(lo) == 0 || forall lock :: lock in states ==> states[lock].number > 0
  {
  }

  /** How many blocks of the main chain every lock has after a batch. */
  function Reach(lo: nat, batch: nat, len: nat): nat {
    if Start(lo) + batch > len then len else Start(lo) + batch
  }

  /** What a sync run does to the states: back to the main chain, then up by a batch from the lowest. */
  ghost predicate Synced(g: Block, c: Columns, batch: nat, before: map<Hash, IndexState>, after: map<Hash, IndexState>)
    requires Tree(g, c.blocks) && c.tip in c.blocks
  {
    if before == map[] then after == before else exists mid, lo :: SyncedVia(g, c, batch, before, mid, lo, after)
  }

  ghost predicate SyncedVia(g: Block, c: Columns, batch: nat, before: map<Hash, IndexState>, mid: map<Hash, IndexState>,
                            lo: nat, after: map<Hash, IndexState>)
    requires Tree(g, c.blocks) && c.tip in c.blocks
  {
    TakenBack(g, c, before, mid) && Lowest(mid, lo) && Advanced(mid, after, Reach(lo, batch, |MainPath(g, c)|))
  }

  /** The heights of a batch: from the start up to its reach. */
  lemma {:induction false} BatchRange(g: Block, c: Columns, states: map<Hash, IndexState>, lo: nat, batch: nat)
    requires Tree(g, c.blocks) && c.tip in c.blocks && Lowest(states, lo)
    requires forall lock :: lock in states ==> OnMain(g, c, states[lock])
    ensures Start(lo) <= Reach(lo, batch, |MainPath(g, c)|) <= |MainPath(g, c)| && Advanced(states, states, Start(lo))
    ensures batch > 0 ==> Reach(lo, batch, |MainPath(g, c)|) > 0
    ensures batch == 0 ==> Reach(lo, batch, |MainPath(g, c)|) == Start(lo)
  {
  }

  lemma {:induction false} LevelKnown(g: Block, u: Outputs, c: Columns, x: Index, states: map<Hash, IndexState>,
                                      followed: set<Hash>, strays: set<Hash>, n: nat)
    requires Tree(g, c.blocks) && c.tip in c.blocks && Level(g, u, c, x, states, followed, strays, n)
    ensures OpsKnown(u, x)
  {
  }

  lemma {:induction false} LevelTidy(g: Block, u: Outputs, c: Columns, x: Index, states: map<Hash, IndexState>,
                                     followed: set<Hash>, strays: set<Hash>, n: nat)
    requires Tree(g, c.blocks) && c.tip in c.blocks && Snapshot(g, u, c) && n < |MainPath(g, c)|
    requires Level(g, u, c, x, states, followed, strays, n) && Tidy(x.(states := states))
    ensures var b := MainPath(g, c)[n];
            var y, states' := AttachTxs(x, Behind(states, n), b, |b.txs|), Advance(states, n, b.hash);
            Level(g, u, c, y, states', followed, strays, n + 1) && Tidy(y.(states := states'))
  {
    hide Snapshot, Matches, Tree, Path, OpsKnown, Placed, OnMain, LockLevel, Level, AttachTxs, Tidy;
    LevelKnown(g, u, c, x, states, followed, strays, n);
    var b := MainPath(g, c)[n];
    var y, states' := AttachTxs(x, Behind(states, n), b, |b.txs|), Advance(states, n, b.hash);
    MainAt(g, u, c, n);
    LevelStep(g, u, c, x, states, followed, strays, n);
    AttachWithin(u, Behind(states, n), x, b, |b.txs|);
    TidyOf(u, Behind(states, n), x, y, states, states');
  }

  ghost predicate AllUnhealed(g: Block, c: Columns, states: map<Hash, IndexState>, live: set<Hash>)
    requires Tree(g, c.blocks) && c.tip in c.blocks
  {
    forall lock :: lock in live ==> lock in states && Unhealed(g, c, lock, states[lock])
  }

  /** A height of the batch removes no wrong live row of a lock that it does not heal. */
  lemma {:induction false} LiveStays(g: Block, u: Outputs, c: Columns, x: Index, states: map<Hash, IndexState>,
                                     before: map<Hash, IndexState>, n: nat, live: set<Hash>)
    requires Tree(g, c.blocks) && c.tip in c.blocks && Snapshot(g, u, c) && n < |MainPath(g, c)| && OpsKnown(u, x)
    requires Advanced(before, states, n) && AllUnhealed(g, c, before, live) && AllLive(Scan([g]), x, live)
    ensures var b := MainPath(g, c)[n]; AllLive(Scan([g]), AttachTxs(x, Behind(states, n), b, |b.txs|), live)
  {
    var b, locks := MainPath(g, c)[n], Behind(states, n);
    hide Snapshot, LiveAgain, Respends, Scan, AttachTxs, Tree, Path;
    forall lock | lock in live ensures LiveAgain(Scan([g]), AttachTxs(x, locks, b, |b.txs|), lock) {
      LiveRow(g, u, c, x, locks, n, lock);
    }
  }

  /** Before height n of a batch that began with the states `before`. */
  ghost predicate InBatch(g: Block, u: Outputs, c: Columns, before: map<Hash, IndexState>, x: Index,
                          states: map<Hash, IndexState>, followed: set<Hash>, strays: set<Hash>, live: set<Hash>,
                          n: nat)
    requires Tree(g, c.blocks) && c.tip in c.blocks
  {
    && Level(g, u, c, x, states, followed, strays, n) && Tidy(x.(states := states)) && Advanced(before, states, n)
    && AllLive(Scan([g]), x, live) && AllUnhealed(g, c, before, live)
  }

  lemma {:induction false} BatchStart(g: Block, u: Outputs, c: Columns, x: Index, followed: set<Hash>,
                                      strays: set<Hash>, healing: set<Hash>, live: set<Hash>, lo: nat)
    requires Tree(g, c.blocks) && c.tip in c.blocks && Snapshot(g, u, c)
    requires IndexOk(g, u, c.blocks, x, followed, strays) && Lowest(x.states, lo)
    requires forall lock :: lock in x.states ==> OnMain(g, c, x.states[lock])
    requires healing == set lock | lock in strays && lock in x.states && x.states[lock].number == 0
    requires AllLive(Scan([g]), x, live) && AllUnhealed(g, c, x.states, live)
    ensures InBatch(g, u, c, x.states, x, x.states, followed + healing, strays - healing, live, Start(lo))
  {
    hide Snapshot, Tree, Path, Level, Tidy, OnMain, OpsKnown, Exact, Stray, Scan, AllLive, AllUnhealed, Start;
    BatchRange(g, c, x.states, lo, 0);
    StartFits(x.states, lo);
    LevelStart(g, u, c, x, followed, strays, healing, Start(lo));
    assert x.(states := x.states) == x;
  }

  /** One height of the batch, with the bookkeeping around it. */
  lemma {:induction false} BatchStep(g: Block, u: Outputs, c: Columns, before: map<Hash, IndexState>, x: Index,
                                     states: map<Hash, IndexState>, followed: set<Hash>, strays: set<Hash>,
                                     live: set<Hash>, n: nat)
    requires Tree(g, c.blocks) && c.tip in c.blocks && Snapshot(g, u, c) && n < |MainPath(g, c)|
    requires InBatch(g, u, c, before, x, states, followed, strays, live, n)
    ensures var b := MainPath(g, c)[n];
            var y, states' := AttachTxs(x, Behind(states, n), b, |b.txs|), Advance(states, n, b.hash);
            InBatch(g, u, c, before, y, states', followed, strays, live, n + 1)
  {
    hide Snapshot, Tree, Path, OpsKnown, Level, AttachTxs, Tidy, Advanced, AllLive, AllUnhealed, Scan;
    LevelTidy(g, u, c, x, states, followed, strays, n);
    LevelKnown(g, u, c, x, states, followed, strays, n);
    LiveStays(g, u, c, x, states, before, n, live);
    AdvancedMore(before, states, n, MainPath(g, c)[n].hash);
  }

  lemma {:induction false} BatchEnd(g: Block, u: Outputs, c: Columns, before: map<Hash, IndexState>, x: Index,
                                    states: map<Hash, IndexState>, followed: set<Hash>, strays: set<Hash>,
                                    live: set<Hash>, n: nat)
    requires Tree(g, c.blocks) && c.tip in c.blocks && Snapshot(g, u, c) && n > 0 && followed !! strays
    requires InBatch(g, u, c, before, x, states, followed, strays, live, n)
    ensures var y := x.(states := states);
            && IndexOk(g, u, c.blocks, y, followed, strays) && UpToDate(g, c, y, followed)
            && AllLive(Scan([g]), y, live) && Advanced(before, states, n)
    ensures forall lock :: lock in states ==> OnMain(g, c, states[lock])
  {
    hide Snapshot, Tree, Path, OpsKnown, Level, Tidy, Advanced, AllLive, AllUnhealed, Scan, IndexOk, UpToDate;
    LevelEnd(g, u, c, x, states, followed, strays, n);
    LiveStates(Scan([g]), x, states, live);
  }

  lemma {:induction false} GenesisBelow(g: Block, u: Outputs, c: Columns, n: nat)
    requires Snapshot(g, u, c) && 0 < n < |MainPath(g, c)|
    ensures var s, b := Scan(MainPath(g, c)[..n]), MainPath(g, c)[n];
            Extends(Scan([g]), s) && TxsFit(s, b, |b.txs|) && BookOk(s) && b.number == n
  {
    hide MainChain.Agrees, Says, Extends, TxsFit, BookOk;
    var m := MainPath(g, c);
    PathAt(g, c.blocks, c.tip, n);
    ScanStep(m, n);
    ScanPrefix(m[..n], 1);
    assert m[..n][..1] == [g];
  }

  lemma {:induction false} WrongRow(g: Block, u: Outputs, c: Columns, x: Index, locks: set<Hash>, n: nat, lock: Hash)
    requires Snapshot(g, u, c) && n < |MainPath(g, c)| && OpsKnown(u, x) && Haunted(Scan([g]), x, lock)
    requires n == 0 ==> lock !in locks
    ensures var b := MainPath(g, c)[n]; Haunted(Scan([g]), AttachTxs(x, locks, b, |b.txs|), lock)
  {
    hide MainChain.Agrees, Says, Extends, TxsFit, BookOk, Haunted, AttachTxs, OpsKnown, Untouched;
    var b := MainPath(g, c)[n];
    if n == 0 {
      MainAt(g, u, c, n);
      AttachWithin(u, locks, x, b, |b.txs|);
      HauntedFrame(Scan([g]), x, AttachTxs(x, locks, b, |b.txs|), lock);
    } else {
      GenesisBelow(g, u, c, n);
      HauntedAttach(Scan([g]), x, lock, Scan(MainPath(g, c)[..n]), locks, b);
    }
  }

  lemma {:induction false} LiveRow(g: Block, u: Outputs, c: Columns, x: Index, locks: set<Hash>, n: nat, lock: Hash)
    requires Snapshot(g, u, c) && n < |MainPath(g, c)| && OpsKnown(u, x) && LiveAgain(Scan([g]), x, lock)
    requires lock in locks ==> n > 0 && !Respends(Scan([g]), MainPath(g, c)[n], lock)
    ensures var b := MainPath(g, c)[n]; LiveAgain(Scan([g]), AttachTxs(x, locks, b, |b.txs|), lock)
  {
    hide MainChain.Agrees, Says, Extends, TxsFit, BookOk, LiveAgain, AttachTxs, OpsKnown, Untouched, Respends;
    var b := MainPath(g, c)[n];
    if lock !in locks {
      MainAt(g, u, c, n);
      AttachWithin(u, locks, x, b, |b.txs|);
      LiveFrame(Scan([g]), x, AttachTxs(x, locks, b, |b.txs|), lock);
    } else {
      GenesisBelow(g, u, c, n);
      LiveAttach(Scan([g]), x, lock, Scan(MainPath(g, c)[..n]), locks, b);
    }
  }

  lemma {:induction false} LiveStates(gb: Book, x: Index, states: map<Hash, IndexState>, live: set<Hash>)
    requires AllLive(gb, x, live)
    ensures AllLive(gb, x.(states := states), live)
  {
    forall lock | lock in live ensures LiveAgain(gb, x.(states := states), lock) {
      SameButStates(x, states, lock);
      LiveFrame(gb, x, x.(states := states), lock);
    }
  }

  lemma {:induction false} NothingToLose(g: Block, u: Outputs, c: Columns, batch: nat, x: Index, followed: set<Hash>,
                                         strays: set<Hash>)
    requires Tree(g, c.blocks) && c.tip in c.blocks && x.states == map[]
    requires IndexOk(g, u, c.blocks, x, followed, strays)
    ensures followed == strays == Lost(g, c, batch, x.states, strays) == {}
    ensures AllLive(Scan([g]), x, followed * LeftLive(g, c, batch, x.states)) && UpToDate(g, c, x, followed)
  {
    AllIndexed(g, u, c.blocks, x, followed, strays);
  }

  lemma {:induction false} AllIndexed(g: Block, u: Outputs, blocks: map<Hash, Block>, x: Index, followed: set<Hash>,
                                      strays: set<Hash>)
    requires Tree(g, blocks) && IndexOk(g, u, blocks, x, followed, strays)
    ensures followed + strays <= x.states.Keys && followed !! strays
    ensures forall lock :: lock in x.states ==> x.states[lock].hash in blocks
  {
    hide Held, Matches, Tidy, OpsKnown;
    assert forall lock :: lock in strays ==> Stray(g, blocks, x, lock);
  }

  /** A lock indexed from block 0 has exact rows if and only if it is followed. */
  lemma {:induction false} ExactlyFollowed(g: Block, u: Outputs, blocks: map<Hash, Block>, x: Index,
                                           followed: set<Hash>, strays: set<Hash>)
    requires Tree(g, blocks) && IndexOk(g, u, blocks, x, followed, strays)
    ensures forall lock :: lock in followed + strays ==> (Exact(g, blocks, x, lock) <==> lock in followed)
  {
    hide Exact, Haunted, Tree, Scan, Matches, Placed, Tidy, OpsKnown;
    forall lock | lock in strays ensures !Exact(g, blocks, x, lock) {
      assert Stray(g, blocks, x, lock);
      HauntedNotExact(g, blocks, x, lock);
    }
  }

  /** The locks that a batch heals, and the sets before and after. */
  lemma {:induction false} HealedSets(g: Block, c: Columns, batch: nat, before: map<Hash, IndexState>,
                                      mid: map<Hash, IndexState>, followed: set<Hash>, strays: set<Hash>,
                                      healing: set<Hash>)
    requires Tree(g, c.blocks) && c.tip in c.blocks && TakenBack(g, c, before, mid)
    requires followed + strays <= before.Keys && followed !! strays
    requires forall lock :: lock in before ==> before[lock].hash in c.blocks
    requires healing == set lock | lock in strays + followed * Disturbed(g, c, before) && batch > 0 &&
                          lock in mid && mid[lock].number == 0
    ensures followed + strays - Lost(g, c, batch, before, strays) == followed - Disturbed(g, c, before) + healing
    ensures (followed + strays) * Lost(g, c, batch, before, strays) ==
            strays + followed * Disturbed(g, c, before) - healing
  {
    hide Back, Loses;
  }

  lemma {:induction false} LeftLiveSets(g: Block, c: Columns, batch: nat, before: map<Hash, IndexState>,
                                        mid: map<Hash, IndexState>, x: Index, followed: set<Hash>)
    requires Tree(g, c.blocks) && c.tip in c.blocks && TakenBack(g, c, before, mid)
    requires AllLive(Scan([g]), x, followed * Disturbed(g, c, before))
    ensures AllLive(Scan([g]), x, followed * LeftLive(g, c, batch, before))
    ensures batch > 0 ==> AllUnhealed(g, c, mid, followed * LeftLive(g, c, batch, before))
  {
    hide Back, Loses, Unhealed, LiveAgain;
  }

  /** A wrong row shows that the rows are not exact, wherever the state is. */
  lemma {:induction false} HauntedNotExact(g: Block, blocks: map<Hash, Block>, x: Index, lock: Hash)
    requires Tree(g, blocks) && Haunted(Scan([g]), x, lock)
    ensures !Exact(g, blocks, x, lock)
  {
    if lock in x.states && Placed(g, blocks, x.states[lock]) {
      var p := Path(g, blocks, x.states[lock].hash);
      assert p[..1] == [g];
      SpentAtGenesis(p);
      hide Haunted, Matches, Extends, AtGenesis, Scan, ScanOk;
      ScanPrefix(p, 1);
      HauntedIsWrong(Scan([g]), x, lock, Scan(p), {});
      HauntedHasRows(Scan([g]), x, lock);
    }
  }

  lemma {:induction false} TidyOf(u: Outputs, locks: set<Hash>, x: Index, y: Index, states: map<Hash, IndexState>,
                                  states': map<Hash, IndexState>)
    requires Tidy(x.(states := states)) && Within(u, locks, x, y) && locks <= states.Keys && states'.Keys == states.Keys
    ensures Tidy(y.(states := states'))
  {
    WithinStates(u, locks, x, y, states);
    TidyWithin(u, locks, x.(states := states), y.(states := states), states');
  }

  lemma {:induction false} WithinStates(u: Outputs, locks: set<Hash>, x: Index, y: Index, states: map<Hash, IndexState>)
    requires Within(u, locks, x, y)
    ensures Within(u, locks, x.(states := states), y.(states := states))
  {
    forall lock | lock !in locks ensures Untouched(x.(states := states), y.(states := states), lock) {
      assert Untouched(x, y, lock);
    }
  }

  // ---------------------------------------------------------------- adding and removing locks

  /** Where indexing starts: at the wanted block, or at the tip if there is no such block yet. */
  function FirstNumber(from: Option<nat>, len: nat): int {
    if from.Some? && from.value < len then from.value else len - 1
  }

  lemma {:induction false} MainStored(g: Block, u: Outputs, c: Columns, n: nat)
    requires Tree(g, c.blocks) && c.tip in c.blocks && Snapshot(g, u, c) && n < |MainPath(g, c)| && n in c.hashOf
    ensures OnMain(g, c, IndexState(n, c.hashOf[n]))
  {
    HashTells(g, u, c, IndexState(n, c.hashOf[n]));
  }

  lemma {:induction false} NoRows(x: Index, lock: Hash)
    requires Tidy(x) && lock !in x.states
    ensures Matches(x, lock, BLANK, {})
  {
  }

  lemma {:induction false} StatesExact(g: Block, blocks: map<Hash, Block>, x: Index, states: map<Hash, IndexState>,
                                       lock: Hash)
    requires Tree(g, blocks) && Exact(g, blocks, x, lock) && lock in states && states[lock] == x.states[lock]
    ensures Exact(g, blocks, x.(states := states), lock)
  {
    hide Matches;
    MatchesStates(x, states, lock, Scan(Path(g, blocks, x.states[lock].hash)));
    MatchesStates(x, states, lock, BLANK);
  }

  lemma {:induction false} TidyInsert(x: Index, lock: Hash, st: IndexState)
    requires Tidy(x)
    ensures Tidy(x.(states := x.states[lock := st]))
  {
  }

  lemma {:induction false} InsertKeeps(g: Block, u: Outputs, c: Columns, x: Index, lock: Hash, st: IndexState,
                                       followed: set<Hash>, strays: set<Hash>)
    requires Tree(g, c.blocks) && c.tip in c.blocks && Snapshot(g, u, c)
    requires IndexOk(g, u, c.blocks, x, followed, strays) && OnMain(g, c, st)
    ensures var followed' := if st.number == 0 && lock !in x.states then followed + {lock} else followed - {lock};
            IndexOk(g, u, c.blocks, x.(states := x.states[lock := st]), followed', strays - {lock})
  {
    hide Snapshot, Tree, Path, Matches, OpsKnown, Tidy, Placed, OnMain, Stray;
    var y := x.(states := x.states[lock := st]);
    TidyInsert(x, lock, st);
    KnownStates(u, x, y.states);
    MainPlaced(g, u, c, st);
    forall other | other in followed && other != lock ensures Exact(g, c.blocks, y, other) {
      StatesExact(g, c.blocks, x, y.states, other);
    }
    forall other | other in strays && other != lock ensures Stray(g, c.blocks, y, other) {
      StatesStray(g, c.blocks, x, y.states, other);
    }
    if lock !in x.states {
      NoRows(x, lock);
      MatchesStates(x, y.states, lock, BLANK);
    }
  }

  lemma {:induction false} StatesStray(g: Block, blocks: map<Hash, Block>, x: Index, states: map<Hash, IndexState>,
                                       lock: Hash)
    requires Tree(g, blocks) && Stray(g, blocks, x, lock)
    requires lock in x.states ==> lock in states && states[lock] == x.states[lock]
    ensures Stray(g, blocks, x.(states := states), lock)
  {
    hide Tree, Path, Held, Placed;
    PlacedStored(g, blocks, x.states[lock]);
    SameButStates(x, states, lock);
    HeldFrame(Scan([g]), x, x.(states := states), lock, Scan(Path(g, blocks, x.states[lock].hash)), true);
  }

  function OpsOf(keys: set<Key>): set<OutPoint> {
    set key | key in keys :: key.op
  }

  function Removed(x: Index, lock: Hash): Index {
    var keys := set key | key in x.live && key.lock == lock;
    Index(x.live - keys, x.txs - (set key | key in x.txs && key.lock == lock), x.ops - OpsOf(keys), x.states - {lock})
  }

  lemma {:induction false} RemoveOne(x: Index, all: set<Key>, keys: set<Key>, key: Key)
    requires keys <= all && key in keys
    ensures x.live - (all - keys) - {key} == x.live - (all - (keys - {key}))
    ensures x.ops - OpsOf(all - keys) - {key.op} == x.ops - OpsOf(all - (keys - {key}))
  {
    assert all - (keys - {key}) == all - keys + {key};
    assert OpsOf(all - keys + {key}) == OpsOf(all - keys) + {key.op};
  }

  lemma {:induction false} RemoveLeaves(u: Outputs, x: Index, lock: Hash, other: Hash)
    requires OpsKnown(u, x) && other != lock
    ensures Untouched(x, Removed(x, lock), other)
  {
  }

  lemma {:induction false} RemoveKeeps(g: Block, u: Outputs, blocks: map<Hash, Block>, x: Index, lock: Hash,
                                       followed: set<Hash>, strays: set<Hash>)
    requires Tree(g, blocks) && IndexOk(g, u, blocks, x, followed, strays)
    ensures IndexOk(g, u, blocks, Removed(x, lock), followed - {lock}, strays - {lock})
  {
    hide Tree, Path, Matches, OpsKnown, Tidy, Placed, Removed, Exact, Stray;
    RemoveTidy(u, x, lock);
    forall other | other in followed - {lock} ensures Exact(g, blocks, Removed(x, lock), other) {
      RemoveExact(g, u, blocks, x, lock, other);
    }
    forall other | other in strays - {lock} ensures Stray(g, blocks, Removed(x, lock), other) {
      RemoveStray(g, u, blocks, x, lock, other);
    }
  }

  lemma {:induction false} RemoveStray(g: Block, u: Outputs, blocks: map<Hash, Block>, x: Index, lock: Hash,
                                       other: Hash)
    requires Tree(g, blocks) && OpsKnown(u, x) && Stray(g, blocks, x, other) && other != lock
    ensures Stray(g, blocks, Removed(x, lock), other)
  {
    hide Tree, Path, Held, OpsKnown, Placed, Removed, Untouched;
    RemoveTidy(u, x, lock);
    RemoveLeaves(u, x, lock, other);
    PlacedStored(g, blocks, x.states[other]);
    HeldFrame(Scan([g]), x, Removed(x, lock), other, Scan(Path(g, blocks, x.states[other].hash)), true);
  }

  lemma {:induction false} RemoveExact(g: Block, u: Outputs, blocks: map<Hash, Block>, x: Index, lock: Hash,
                                       other: Hash)
    requires Tree(g, blocks) && OpsKnown(u, x) && Exact(g, blocks, x, other) && other != lock
    ensures Exact(g, blocks, Removed(x, lock), other)
  {
    hide Tree, Path, Matches, OpsKnown, Placed, Removed, Untouched;
    RemoveTidy(u, x, lock);
    RemoveLeaves(u, x, lock, other);
    PlacedStored(g, blocks, x.states[other]);
    var y, s := Removed(x, lock), Scan(Path(g, blocks, x.states[other].hash));
    if Matches(x, other, s, {}) { MatchesFrame(x, y, other, s, {}); } else { MatchesFrame(x, y, other, BLANK, {}); }
  }

  lemma {:induction false} RemoveTidy(u: Outputs, x: Index, lock: Hash)
    requires OpsKnown(u, x)
    ensures OpsKnown(u, Removed(x, lock)) && Removed(x, lock).states == x.states - {lock}
    ensures Tidy(x) ==> Tidy(Removed(x, lock))
  {
  }
}
