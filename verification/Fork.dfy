/**
  Finding the fork: which blocks leave the main chain, which join it, and which of the joining
  blocks still have to be verified.
 */
module Fork {
  import opened Types
  import opened Ledger
  import opened Store
  import opened MainChain

  class ForkChanges {
    var attached: seq<Block>
    var detached: seq<Block>
    var dirty: seq<BlockExt>

    constructor ()
      ensures attached == [] && detached == [] && dirty == []
    {
      attached, detached, dirty := [], [], [];
    }

    /** The attached blocks in front of the dirty ones need no verification. */
    function VerifiedLen(): nat
      requires |dirty| <= |attached|
      reads this
    {
      |attached| - |dirty|
    }
  }

  class GlobalIndex {
    var number: nat
    var hash: Hash
    var unseen: bool

    constructor (number: nat, hash: Hash, unseen: bool)
      ensures this.number == number && this.hash == hash && this.unseen == unseen
    {
      this.number, this.hash, this.unseen := number, hash, unseen;
    }

    method Forward(h: Hash)
      requires number > 0
      modifies this
      ensures number == old(number) - 1 && hash == h && unseen == old(unseen)
    {
      number, hash := number - 1, h;
    }
  }

  function Reverse<T>(s: seq<T>): seq<T> {
    seq(|s|, i requires 0 <= i < |s| => s[|s| - 1 - i])
  }

  /** The main chain m and the ancestors of the new tip of np can be read from the columns. */
  ghost predicate Readable(c: Columns, m: seq<Block>, np: seq<Block>) {
    && |m| > 0 && |np| > 1
    && c.hashOf == HashIndex(m) && Stored(c.blocks, m)
    && Linked(np)
    && (forall i :: 0 <= i < |np| - 1 ==>
          np[i].hash in c.blocks && c.blocks[np[i].hash] == np[i] && np[i].hash in c.exts)
  }

  /** Both chains come from one tree, and the new tip is not in it yet. */
  ghost predicate Meets(c: Columns, m: seq<Block>, np: seq<Block>) {
    && |m| > 0 && |np| > 1
    && m[0] == np[0]
    && Numbered(m) && Numbered(np)
    && np[|np| - 1].hash !in c.blocks
    && (forall i :: 0 <= i < |m| && i < |np| ==> MeetAt(m, np, i))
  }

  /** Chains that share the block at a height share everything below it. */
  predicate MeetAt(m: seq<Block>, np: seq<Block>, i: nat)
    requires i < |m| && i < |np|
  {
    m[i] == np[i] ==> m[..i + 1] == np[..i + 1]
  }

  /** Verification marks never skip an ancestor and none is negative. */
  ghost predicate Marked(c: Columns, np: seq<Block>) {
    && (forall i :: 0 <= i < |np| - 1 ==> np[i].hash in c.exts && c.exts[np[i].hash].verified != Some(false))
    && (forall i :: 0 < i < |np| - 1 ==> MarkAt(c, np, i))
  }

  ghost predicate MarkAt(c: Columns, np: seq<Block>, i: nat)
    requires 0 < i < |np| && np[i].hash in c.exts && np[i - 1].hash in c.exts
  {
    c.exts[np[i].hash].verified.Some? ==> c.exts[np[i - 1].hash].verified.Some?
  }

  /** k blocks are common to both chains, and no more. */
  predicate ForksAt(m: seq<Block>, np: seq<Block>, k: nat) {
    && 0 < k <= |m| && k < |np|
    && m[..k] == np[..k]
    && (k < |m| ==> m[k] != np[k])
  }

  /** The greatest height at which both chains can be compared. */
  function Aligned(m: seq<Block>, np: seq<Block>): nat
    requires |m| > 0 && |np| > 1
  {
    if |np| - 1 < |m| then |np| - 2 else |m| - 1
  }

  /** The main-chain blocks at and above the new tip, highest first. */
  function Overhang(m: seq<Block>, np: seq<Block>): seq<Block>
    requires |m| > 0 && |np| > 1
  {
    if |np| - 1 < |m| then Reverse(m[|np| - 1..]) else []
  }

  /**
    The exact order of the detached blocks. When the new tip is lower than the old one the part
    from the new tip on is in reverse, although the source describes a plain range.
   */
  function Detached(m: seq<Block>, np: seq<Block>, k: nat): seq<Block>
    requires |m| > 0 && |np| > 1 && 0 < k <= Aligned(m, np) + 1
  {
    m[k..Aligned(m, np) + 1] + Overhang(m, np)
  }

  /**
    The dirty extensions belong to the last attached blocks, in order: the new block's own
    extension last, before it those of stored blocks that carry no mark.
   */
  predicate LinesUp(c: Columns, np: seq<Block>, ext: BlockExt, dirty: seq<BlockExt>) {
    && 1 <= |dirty| < |np|
    && dirty[|dirty| - 1] == ext
    && forall i :: 0 <= i < |dirty| - 1 ==>
         var h := np[|np| - |dirty| + i].hash;
         h in c.exts && dirty[i] == c.exts[h] && dirty[i].verified == None
  }

  /** The walk has reached height `at` of the new chain. */
  predicate Walked(c: Columns, np: seq<Block>, ext: BlockExt, dirty: seq<BlockExt>, at: nat, unseen: bool) {
    && at < |np| - 1
    && LinesUp(c, np, ext, dirty)
    && |dirty| <= |np| - 1 - at
    && (unseen ==> |dirty| == |np| - 1 - at)
    && (!unseen ==> |dirty| < |np| - 1 - at && np[|np| - 1 - |dirty|].hash in c.exts &&
                    c.exts[np[|np| - 1 - |dirty|].hash].verified.Some?)
  }

  /** The main-chain block at a height, read through the number index. */
  method MainBlock(c: Columns, ghost m: seq<Block>, n: nat) returns (b: Block)
    requires c.hashOf == HashIndex(m) && Stored(c.blocks, m) && n < |m|
    ensures b == m[n]
  {
    b := c.blocks[c.hashOf[n]];
  }

  /** The part both loops share: take the block at the index into the attached ones and step down. */
  method Advance(c: Columns, ghost m: seq<Block>, ghost np: seq<Block>, ghost ext: BlockExt, fork: ForkChanges,
                 index: GlobalIndex)
    requires Readable(c, m, np) && 0 < index.number
    requires Walked(c, np, ext, fork.dirty, index.number, index.unseen)
    requires index.hash == np[index.number].hash && fork.attached == np[index.number + 1..]
    modifies fork, index
    ensures index.number == old(index.number) - 1 && fork.detached == old(fork.detached)
    ensures Walked(c, np, ext, fork.dirty, index.number, index.unseen)
    ensures index.hash == np[index.number].hash && fork.attached == np[index.number + 1..]
  {
    ghost var at := index.number;
    if index.unseen {
      var e := c.exts[index.hash];
      if e.verified.None? {
        fork.dirty := [e] + fork.dirty;
      } else {
        index.unseen := false;
      }
    }
    var block := c.blocks[index.hash];
    assert LinkAt(np, at);
    index.Forward(block.parent);
    assert np[at..] == [np[at]] + np[at + 1..];
    fork.attached := [block] + fork.attached;
  }

  /** `alignment_fork`: bring both chains to the same height. */
  method AlignmentFork(c: Columns, ghost m: seq<Block>, ghost np: seq<Block>, ghost ext: BlockExt,
                       fork: ForkChanges, index: GlobalIndex, newTip: nat, currentTip: nat)
    requires Readable(c, m, np) && newTip == |np| - 1 && currentTip == |m| - 1
    requires Walked(c, np, ext, fork.dirty, index.number, index.unseen) && index.number == newTip - 1
    requires index.hash == np[index.number].hash && fork.attached == np[index.number + 1..]
    requires fork.detached == []
    modifies fork, index
    ensures Walked(c, np, ext, fork.dirty, index.number, index.unseen)
    ensures index.hash == np[index.number].hash && fork.attached == np[index.number + 1..]
    ensures index.number == Aligned(m, np) && fork.detached == Overhang(m, np)
  {
    if newTip <= currentTip {
      for n := newTip to currentTip + 1
        invariant fork.detached == Reverse(m[newTip..n])
        invariant unchanged(index) && fork.dirty == old(fork.dirty) && fork.attached == old(fork.attached)
      {
        assert Reverse(m[newTip..n + 1]) == [m[n]] + Reverse(m[newTip..n]);
        var old_block := MainBlock(c, m, n);
        fork.detached := [old_block] + fork.detached;
      }
      assert m[newTip..currentTip + 1] == m[newTip..];
    } else {
      while index.number > currentTip
        invariant currentTip <= index.number && fork.detached == []
        invariant Walked(c, np, ext, fork.dirty, index.number, index.unseen)
        invariant index.hash == np[index.number].hash && fork.attached == np[index.number + 1..]
      {
        Advance(c, m, np, ext, fork, index);
      }
    }
  }

  /** One step of the second loop: a main-chain block leaves, a block of the new chain joins. */
  method StepDown(c: Columns, ghost m: seq<Block>, ghost np: seq<Block>, ghost ext: BlockExt, fork: ForkChanges,
                  index: GlobalIndex)
    requires Readable(c, m, np) && 0 < index.number <= Aligned(m, np)
    requires Walked(c, np, ext, fork.dirty, index.number, index.unseen)
    requires index.hash == np[index.number].hash && fork.attached == np[index.number + 1..]
    requires fork.detached == Detached(m, np, index.number + 1)
    modifies fork, index
    ensures index.number == old(index.number) - 1 && fork.detached == Detached(m, np, index.number + 1)
    ensures Walked(c, np, ext, fork.dirty, index.number, index.unseen)
    ensures index.hash == np[index.number].hash && fork.attached == np[index.number + 1..]
  {
    hide Detached, Walked, Linked;
    var block := MainBlock(c, m, index.number);
    DetachedGrows(m, np, index.number);
    fork.detached := [block] + fork.detached;
    Advance(c, m, np, ext, fork, index);
  }

  lemma {:induction false} DetachedGrows(m: seq<Block>, np: seq<Block>, i: nat)
    requires |m| > 0 && |np| > 1 && 0 < i <= Aligned(m, np)
    ensures [m[i]] + Detached(m, np, i + 1) == Detached(m, np, i)
  {
  }

  /** `find_fork_until_latest_common`: step down both chains until they meet. */
  method UntilLatestCommon(c: Columns, ghost m: seq<Block>, ghost np: seq<Block>, ghost ext: BlockExt,
                           fork: ForkChanges, index: GlobalIndex)
    requires Readable(c, m, np) && index.number == Aligned(m, np) && fork.detached == Overhang(m, np)
    requires Walked(c, np, ext, fork.dirty, index.number, index.unseen)
    requires index.hash == np[index.number].hash && fork.attached == np[index.number + 1..]
    requires index.number + 1 < |m| ==> m[index.number + 1] != np[index.number + 1]
    modifies fork, index
    ensures index.number <= Aligned(m, np)
    ensures index.number == 0 || m[index.number].hash == np[index.number].hash
    ensures index.number + 1 < |m| ==> m[index.number + 1] != np[index.number + 1]
    ensures Walked(c, np, ext, fork.dirty, index.number, index.unseen)
    ensures fork.attached == np[index.number + 1..]
    ensures fork.detached == Detached(m, np, index.number + 1)
  {
    assert fork.detached == Detached(m, np, index.number + 1);
    hide Detached, Linked;
    while index.number != 0 && c.hashOf[index.number] != index.hash
      invariant index.number <= Aligned(m, np)
      invariant Walked(c, np, ext, fork.dirty, index.number, index.unseen)
      invariant index.hash == np[index.number].hash && fork.attached == np[index.number + 1..]
      invariant index.number + 1 < |m| ==> m[index.number + 1] != np[index.number + 1]
      invariant fork.detached == Detached(m, np, index.number + 1)
      decreases index.number
    {
      StepDown(c, m, np, ext, fork, index);
    }
  }

  lemma {:induction false} Meet(c: Columns, m: seq<Block>, np: seq<Block>, i: nat)
    requires Readable(c, m, np) && Meets(c, m, np) && i < |m| && i < |np| - 1
    requires i == 0 || m[i].hash == np[i].hash
    requires i + 1 < |m| ==> m[i + 1] != np[i + 1]
    ensures ForksAt(m, np, i + 1)
  {
    assert m[i] == np[i];
    assert MeetAt(m, np, i);
  }

  /** Both loops of the walk, from the parent of the new tip down to the common ancestor. */
  method WalkFork(c: Columns, ghost m: seq<Block>, ghost np: seq<Block>, ghost ext: BlockExt,
                  fork: ForkChanges, index: GlobalIndex, newTip: nat, currentTip: nat)
    requires Readable(c, m, np) && newTip == |np| - 1 && currentTip == |m| - 1
    requires Walked(c, np, ext, fork.dirty, index.number, index.unseen) && index.number == newTip - 1
    requires index.hash == np[index.number].hash && fork.attached == np[index.number + 1..]
    requires fork.detached == [] && (newTip < |m| ==> m[newTip] != np[newTip])
    modifies fork, index
    ensures index.number <= Aligned(m, np) && Walked(c, np, ext, fork.dirty, index.number, index.unseen)
    ensures index.number == 0 || m[index.number].hash == np[index.number].hash
    ensures index.number + 1 < |m| ==> m[index.number + 1] != np[index.number + 1]
    ensures fork.attached == np[index.number + 1..] && fork.detached == Detached(m, np, index.number + 1)
  {
    AlignmentFork(c, m, np, ext, fork, index, newTip, currentTip);
    UntilLatestCommon(c, m, np, ext, fork, index);
  }

  /** The new tip is not stored, so the main chain does not hold it. */
  lemma {:induction false} NewTipDiffers(c: Columns, m: seq<Block>, np: seq<Block>)
    requires Readable(c, m, np) && Meets(c, m, np)
    ensures |np| - 1 < |m| ==> m[|np| - 1] != np[|np| - 1]
  {
  }

  /**
    `find_fork`: attached is the path from the latest common ancestor to the new tip, detached
    the main-chain blocks above that ancestor, and dirty the extensions still to be verified.
   */
  method FindFork(c: Columns, ghost m: seq<Block>, ghost np: seq<Block>, fork: ForkChanges,
                  currentTip: nat, b: Block, ext: BlockExt) returns (ghost k: nat)
    requires Readable(c, m, np) && Meets(c, m, np) && Marked(c, np) && currentTip == |m| - 1 && b == np[|np| - 1]
    requires fork.attached == [] && fork.detached == [] && fork.dirty == []
    modifies fork
    ensures ForksAt(m, np, k) && k <= Aligned(m, np) + 1
    ensures fork.attached == np[k..]
    ensures fork.detached == Detached(m, np, k)
    ensures LinesUp(c, np, ext, fork.dirty) && |fork.dirty| <= |fork.attached|
    ensures AllVerified(c, np, k, |np| - |fork.dirty|)
  {
    hide Detached, Marked;
    fork.dirty := [ext] + fork.dirty;
    fork.attached := [b] + fork.attached;
    assert LinkAt(np, |np| - 1);
    NewTipDiffers(c, m, np);
    var index := new GlobalIndex(b.number - 1, b.parent, true);
    WalkFork(c, m, np, ext, fork, index, b.number, currentTip);
    k := index.number + 1;
    Meet(c, m, np, index.number);
    VerifiedBelow(c, np, ext, fork.dirty, index.number, index.unseen);
  }

  /** The blocks of the new chain at the heights i..j, j excluded, carry a positive mark. */
  predicate AllVerified(c: Columns, np: seq<Block>, i: nat, j: nat)
    requires j <= |np|
  {
    forall x :: i <= x < j ==> np[x].hash in c.exts && c.exts[np[x].hash].verified == Some(true)
  }

  /** Marks never skip an ancestor, so every block before the dirty ones is marked verified. */
  lemma {:induction false} VerifiedBelow(c: Columns, np: seq<Block>, ext: BlockExt, dirty: seq<BlockExt>, at: nat,
                                         unseen: bool)
    requires Marked(c, np) && Walked(c, np, ext, dirty, at, unseen)
    ensures AllVerified(c, np, at + 1, |np| - |dirty|)
  {
    forall i | at < i < |np| - |dirty| ensures np[i].hash in c.exts && c.exts[np[i].hash].verified == Some(true) {
      MarksDown(c, np, |np| - |dirty| - 1, i);
    }
  }

  lemma {:induction false} MarksDown(c: Columns, np: seq<Block>, j: nat, i: nat)
    requires Marked(c, np) && i <= j < |np| - 1 && c.exts[np[j].hash].verified.Some?
    ensures c.exts[np[i].hash].verified == Some(true)
  {
    if i < j {
      assert MarkAt(c, np, j);
      MarksDown(c, np, j - 1, i);
    } else {
      var v := c.exts[np[i].hash].verified;
      assert v.value == true || v == Some(false);
    }
  }

  // ---------------------------------------------------------------- the detached blocks

  /** Whatever their order, the detached blocks are the main-chain blocks above the common ancestor. */
  lemma {:induction false} DetachedElems(m: seq<Block>, np: seq<Block>, k: nat)
    requires |m| > 0 && |np| > 1 && 0 < k <= Aligned(m, np) + 1 && Numbered(m)
    ensures NoDup(Reverse(Detached(m, np, k))) && Elems(Reverse(Detached(m, np, k))) == Elems(m[k..])
  {
    var a := Aligned(m, np) + 1;
    var over := Overhang(m, np);
    assert |over| == |m| - a;
    forall i | 0 <= i < |over| ensures over[i] == m[|m| - 1 - i] {
    }
    var d := Detached(m, np, k);
    assert |d| == |m| - k;
    forall i | 0 <= i < |d| ensures d[i] == if i < a - k then m[k + i] else m[|m| - 1 - (i - (a - k))] {
    }
    ReverseElems(d);
    SliceOf(m, k, a, d);
  }

  lemma {:induction false} ReverseElems(d: seq<Block>)
    ensures Elems(Reverse(d)) == Elems(d)
    ensures NoDup(d) ==> NoDup(Reverse(d))
  {
    var r := Reverse(d);
    forall x | x in d ensures x in r {
      var i :| 0 <= i < |d| && d[i] == x;
      assert r[|d| - 1 - i] == x;
    }
    forall x | x in r ensures x in d {
    }
  }

  lemma {:induction false} SliceOf(m: seq<Block>, k: nat, a: nat, d: seq<Block>)
    requires k <= a <= |m| && |d| == |m| - k && Numbered(m)
    requires forall i :: 0 <= i < |d| ==> d[i] == if i < a - k then m[k + i] else m[|m| - 1 - (i - (a - k))]
    ensures NoDup(d) && Elems(d) == Elems(m[k..])
  {
    forall x | x in m[k..] ensures x in d {
      var j :| 0 <= j < |m[k..]| && m[k..][j] == x;
      if j < a - k {
        assert d[j] == x;
      } else {
        assert d[|m| - 1 - (k + j) + (a - k)] == x;
      }
    }
    forall x | x in d ensures x in m[k..] {
      var i :| 0 <= i < |d| && d[i] == x;
      if i < a - k {
        assert m[k..][i] == x;
      } else {
        assert m[k..][|m| - 1 - (i - (a - k)) - k] == x;
      }
    }
    forall i, j | 0 <= i < j < |d| ensures d[i] != d[j] {
      assert d[i].number != d[j].number;
    }
  }

  /** The detached blocks are in ascending order exactly when the new tip is not below the old one. */
  lemma {:induction false} DetachedAscending(m: seq<Block>, np: seq<Block>, k: nat)
    requires |m| > 0 && |np| > 1 && 0 < k <= Aligned(m, np) + 1 && Numbered(m)
    ensures Detached(m, np, k) == m[k..] <==> |np| >= |m|
  {
    if |np| < |m| {
      var a := |np| - 1;
      assert Detached(m, np, k)[a - k] == m[|m| - 1];
      assert m[k..][a - k] == m[a];
    }
  }
}
