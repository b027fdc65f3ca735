/**
  Two-step transaction confirmation: the walk that collects the proposal ids of the window, and
  the exact set of ancestors it takes into account.
 */
module TwoPhase {
  import opened Types
  import opened Ledger
  import opened Store
  import opened MainChain

  datatype CommitError = AncestorNotFound | NotProposed

  datatype Window = Window(closest: nat, farthest: nat)

  const TX_PROPOSAL_WINDOW: Window := Window(2, 10)

  function UncleProposals(us: seq<Uncle>): set<Hash> {
    set i, id | 0 <= i < |us| && id in us[i].proposals :: id
  }

  /** Ids a block proposes, itself or through an embedded uncle. */
  function ProposalIds(b: Block): set<Hash> {
    Elems(b.proposals) + UncleProposals(b.uncles)
  }

  function CommittedIds(b: Block, shortId: Hash -> Hash): set<Hash> {
    set i | 0 < i < |b.txs| :: shortId(b.txs[i].hash)
  }

  /** The id was proposed by a non-genesis ancestor at a distance within the window. */
  predicate ProposedInWindow(p: seq<Block>, n: nat, w: Window, id: Hash) {
    exists a :: 0 < a < |p| && w.closest <= n - a <= w.farthest && id in ProposalIds(p[a])
  }

  predicate TwoPhaseOk(p: seq<Block>, b: Block, w: Window, shortId: Hash -> Hash) {
    b.number == 0 || forall id :: id in CommittedIds(b, shortId) ==> ProposedInWindow(p, b.number, w, id)
  }

  /** Ids proposed at the heights lo..hi, genesis excluded. */
  ghost function IdsBetween(p: seq<Block>, lo: int, hi: int): set<Hash> {
    set a, id | 0 < a < |p| && lo <= a <= hi && id in ProposalIds(p[a]) :: id
  }

  lemma {:induction false} IdsStep(p: seq<Block>, lo: nat, hi: nat)
    requires 0 < lo < |p| && lo <= hi
    ensures IdsBetween(p, lo, hi) == IdsBetween(p, lo + 1, hi) + ProposalIds(p[lo])
  {
  }

  /**
    The loop: from height `last` down to `first`, stopping early at genesis. Heights are
    naturals, so the decrement is shown not to go below zero.
   */
  method CollectIds(c: Columns, ghost p: seq<Block>, start: Hash, first: nat,
                    last: nat) returns (ids: Option<set<Hash>>)
    requires Numbered(p) && Linked(p) && Stored(c.blocks, p)
    requires last < |p| && start == p[last].hash
    ensures ids == Some(IdsBetween(p, first, last))
  {
    var found: set<Hash> := {};
    var hash := start;
    var end: nat := last;
    while end >= first
      invariant end <= last && hash == p[end].hash
      invariant end + 1 >= first || end == last
      invariant found == IdsBetween(p, end + 1, last)
    {
      if hash !in c.blocks { return None; }
      var block := c.blocks[hash];
      if block.number == 0 {
        assert IdsBetween(p, 1, last) == IdsBetween(p, first, last);
        return Some(found);
      }
      IdsStep(p, end, last);
      assert LinkAt(p, end);
      found := found + Elems(block.proposals);
      found := found + UncleProposals(block.uncles);
      hash := block.parent;
      end := end - 1;
    }
    assert end + 1 == first || IdsBetween(p, end + 1, last) == IdsBetween(p, first, last);
    return Some(found);
  }

  /** `TwoPhaseCommitVerifier::verify` against the columns c of the parent chain p. */
  method VerifyTwoPhase(c: Columns, ghost p: seq<Block>, b: Block, w: Window, shortId: Hash -> Hash)
      returns (r: Option<CommitError>)
    requires c.hashOf == HashIndex(p) && Stored(c.blocks, p) && Numbered(p) && Linked(p)
    requires p != [] && (b.number == 0 || b.number == |p|) && w.closest > 0
    ensures r == None <==> TwoPhaseOk(p, b, w, shortId)
    ensures r != Some(AncestorNotFound)
  {
    if b.number == 0 { return None; }
    var first: nat := if b.number > w.farthest then b.number - w.farthest else 0;
    var last: nat := if b.number > w.closest then b.number - w.closest else 0;
    if last !in c.hashOf { return Some(AncestorNotFound); }
    var ids := CollectIds(c, p, c.hashOf[last], first, last);
    WindowIds(p, b.number, w);
    if ids.None? { return Some(AncestorNotFound); }
    if CommittedIds(b, shortId) <= ids.value { return None; }
    return Some(NotProposed);
  }

  lemma {:induction false} WindowIds(p: seq<Block>, n: nat, w: Window)
    requires n == |p| && w.closest > 0
    ensures var first := if n > w.farthest then n - w.farthest else 0;
            var last := if n > w.closest then n - w.closest else 0;
            forall id :: id in IdsBetween(p, first, last) <==> ProposedInWindow(p, n, w, id)
  {
  }

  /** Some block of the chain, not genesis, lo to hi below height n, names the id, or an uncle that it embeds does. */
  ghost predicate Proposed(p: seq<Block>, n: nat, lo: nat, hi: nat, id: Hash) {
    exists a :: 0 < a < |p| && lo <= n - a <= hi && Names(p[a], id)
  }

  ghost predicate Names(b: Block, id: Hash) {
    id in b.proposals || exists k :: 0 <= k < |b.uncles| && id in b.uncles[k].proposals
  }

  lemma {:induction false} NamesIs(b: Block, id: Hash)
    ensures Names(b, id) <==> id in ProposalIds(b)
  {
  }

  /** The rule in terms of the chain: every transaction but the cellbase was proposed two to ten blocks before. */
  lemma {:induction false} CommitExactly(p: seq<Block>, b: Block, shortId: Hash -> Hash)
    requires b.number > 0
    ensures TwoPhaseOk(p, b, TX_PROPOSAL_WINDOW, shortId) <==>
            forall i :: 0 < i < |b.txs| ==> Proposed(p, b.number, 2, 10, shortId(b.txs[i].hash))
  {
    hide Names, ProposalIds;
    forall id ensures ProposedInWindow(p, b.number, TX_PROPOSAL_WINDOW, id) <==> Proposed(p, b.number, 2, 10, id) {
      forall a | 0 < a < |p| ensures Names(p[a], id) <==> id in ProposalIds(p[a]) { NamesIs(p[a], id); }
    }
    forall i | 0 < i < |b.txs| ensures shortId(b.txs[i].hash) in CommittedIds(b, shortId) { }
  }
}
