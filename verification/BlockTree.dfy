/**
  The stored blocks form a tree rooted at genesis. A path runs from genesis to a stored block;
  the main chain is the path to the tip.
 */
module BlockTree {
  import opened Types
  import opened Store
  import opened MainChain

  predicate Tree(g: Block, blocks: map<Hash, Block>) {
    && g.number == 0
    && g.hash in blocks && blocks[g.hash] == g
    && (forall h :: h in blocks ==> blocks[h].hash == h)
    && (forall h :: h in blocks && blocks[h].number == 0 ==> h == g.hash)
    && (forall h {:trigger HasParent(blocks, h)} :: h in blocks && blocks[h].number > 0 ==> HasParent(blocks, h))
  }

  predicate HasParent(blocks: map<Hash, Block>, h: Hash)
    requires h in blocks
  {
    blocks[h].parent in blocks && blocks[blocks[h].parent].number + 1 == blocks[h].number
  }

  /** The chain from genesis to the block with hash h, by repeated parent steps. */
  function Path(g: Block, blocks: map<Hash, Block>, h: Hash): (p: seq<Block>)
    requires Tree(g, blocks) && h in blocks
    ensures |p| == blocks[h].number + 1
    ensures p[0] == g && p[|p| - 1] == blocks[h]
    decreases blocks[h].number
  {
    if blocks[h].number == 0 then [blocks[h]] else
    assert HasParent(blocks, h);
    Path(g, blocks, blocks[h].parent) + [blocks[h]]
  }

  /** The main chain of a store. */
  function MainPath(g: Block, c: Columns): seq<Block>
    requires Tree(g, c.blocks) && c.tip in c.blocks
  {
    Path(g, c.blocks, c.tip)
  }

  lemma {:induction false} PathAt(g: Block, blocks: map<Hash, Block>, h: Hash, i: nat)
    requires Tree(g, blocks) && h in blocks && i <= blocks[h].number
    ensures var b := Path(g, blocks, h)[i];
            b.number == i && b.hash in blocks && blocks[b.hash] == b &&
            (i > 0 ==> b.parent == Path(g, blocks, h)[i - 1].hash)
    decreases blocks[h].number
  {
    assert blocks[h].number > 0 ==> HasParent(blocks, h);
    if i < blocks[h].number { PathAt(g, blocks, blocks[h].parent, i); }
  }

  lemma {:induction false} PathShape(g: Block, blocks: map<Hash, Block>, h: Hash)
    requires Tree(g, blocks) && h in blocks
    ensures Stored(blocks, Path(g, blocks, h)) && Numbered(Path(g, blocks, h)) && Linked(Path(g, blocks, h))
  {
    var p := Path(g, blocks, h);
    forall i | 0 <= i < |p|
      ensures p[i].number == i && p[i].hash in blocks && blocks[p[i].hash] == p[i] && (i > 0 ==> LinkAt(p, i))
    {
      PathAt(g, blocks, h, i);
    }
  }

  /** Every prefix of a path is the path of its own last block. */
  lemma {:induction false} PathPrefix(g: Block, blocks: map<Hash, Block>, h: Hash, i: nat)
    requires Tree(g, blocks) && h in blocks && i <= blocks[h].number
    ensures var p := Path(g, blocks, h); p[i].hash in blocks && Path(g, blocks, p[i].hash) == p[..i + 1]
    decreases blocks[h].number
  {
    var p := Path(g, blocks, h);
    if i == blocks[h].number {
      assert p[..i + 1] == p;
    } else {
      assert HasParent(blocks, h);
      var q := Path(g, blocks, blocks[h].parent);
      PathPrefix(g, blocks, blocks[h].parent, i);
      assert q[i] == p[i] && q[..i + 1] == p[..i + 1];
    }
  }

  /** Storing one more block does not change the paths of the blocks stored before. */
  lemma {:induction false} PathStable(g: Block, blocks: map<Hash, Block>, b: Block, h: Hash)
    requires Tree(g, blocks) && h in blocks && b.hash !in blocks && Tree(g, blocks[b.hash := b])
    ensures Path(g, blocks[b.hash := b], h) == Path(g, blocks, h)
    decreases blocks[h].number
  {
    if blocks[h].number > 0 {
      assert HasParent(blocks, h);
      PathStable(g, blocks, b, blocks[h].parent);
    }
  }

  lemma {:induction false} TreeGrows(g: Block, blocks: map<Hash, Block>, b: Block)
    requires Tree(g, blocks) && b.hash !in blocks
    requires b.parent in blocks && b.number == blocks[b.parent].number + 1
    ensures Tree(g, blocks[b.hash := b])
  {
    var blocks' := blocks[b.hash := b];
    forall h | h in blocks' && blocks'[h].number > 0 ensures HasParent(blocks', h) {
      if h != b.hash { assert HasParent(blocks, h); }
    }
  }

  /** Paths that meet at a height agree below it. */
  lemma {:induction false} PathsMeet(g: Block, blocks: map<Hash, Block>, h: Hash, h': Hash, i: nat)
    requires Tree(g, blocks) && h in blocks && h' in blocks
    requires i <= blocks[h].number && i <= blocks[h'].number
    requires Path(g, blocks, h)[i] == Path(g, blocks, h')[i]
    ensures Path(g, blocks, h)[..i + 1] == Path(g, blocks, h')[..i + 1]
  {
    PathPrefix(g, blocks, h, i);
    PathPrefix(g, blocks, h', i);
  }
}
