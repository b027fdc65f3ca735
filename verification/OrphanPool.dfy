/**
  The pool of blocks whose parent is not known yet: orphans by parent, and the parent of every
  orphan. When a parent arrives, everything that descends from it leaves the pool in one go.
 */
module OrphanPool {
  import opened Types

  datatype Orphan = Orphan(hash: Hash, parent: Hash, peer: nat)

  type ByParent = map<Hash, map<Hash, Orphan>>

  /** The two maps say the same: who is in the pool, and under which parent. */
  predicate Inverse(blocks: ByParent, parents: map<Hash, Hash>) {
    && (forall p, h :: p in blocks && h in blocks[p] ==> h in parents && parents[h] == p)
    && (forall h :: h in parents ==> parents[h] in blocks && h in blocks[parents[h]])
    && (forall p, h :: p in blocks && h in blocks[p] ==> blocks[p][h].hash == h && blocks[p][h].parent == p)
  }

  /** From h one comes to `root` in n parent steps. */
  predicate Leads(parents: map<Hash, Hash>, h: Hash, root: Hash, n: nat)
    decreases n
  {
    n > 0 && h in parents && (if n == 1 then parents[h] == root else Leads(parents, parents[h], root, n - 1))
  }

  /** In the pool, and its ancestry leads to `root`. */
  ghost predicate Descends(parents: map<Hash, Hash>, h: Hash, root: Hash) {
    exists n :: Leads(parents, h, root, n)
  }

  function Hashes(s: seq<Orphan>): seq<Hash> {
    seq(|s|, i requires 0 <= i < |s| => s[i].hash)
  }

  /** The orphans of one parent, in whatever order the map is walked. */
  method Listed(orphans: map<Hash, Orphan>) returns (r: seq<Orphan>)
    requires forall h :: h in orphans ==> orphans[h].hash == h
    ensures IsGroup(orphans, r)
  {
    r := [];
    var rest := orphans.Keys;
    while rest != {}
      invariant rest <= orphans.Keys
      invariant forall x :: x in r <==> x.hash in orphans && x.hash !in rest && orphans[x.hash] == x
      invariant forall i, j :: 0 <= i < j < |r| ==> r[i].hash != r[j].hash
      decreases |rest|
    {
      var h :| h in rest;
      assert forall i :: 0 <= i < |r| ==> r[i] in r;
      r := r + [orphans[h]];
      rest := rest - {h};
    }
  }

  method Dropped(parents: map<Hash, Hash>, group: seq<Orphan>) returns (r: map<Hash, Hash>)
    ensures r == parents - HashSet(group)
  {
    r := parents;
    for i := 0 to |group|
      invariant r == parents - HashSet(group[..i])
    {
      HashSetMore(group, i);
      r := r - {group[i].hash};
    }
    assert group[..|group|] == group;
  }

  class OrphanBlockPool {
    var blocks: ByParent
    var parents: map<Hash, Hash>

    predicate Valid()
      reads this
    {
      Inverse(blocks, parents)
    }

    constructor ()
      ensures Valid() && blocks == map[] && parents == map[]
    {
      blocks, parents := map[], map[];
    }

    /** The same hash never comes with another parent. */
    method Insert(x: Orphan)
      requires Valid() && (x.hash in parents ==> parents[x.hash] == x.parent)
      modifies this
      ensures Valid() && parents == old(parents)[x.hash := x.parent]
      ensures x.parent in blocks && x.hash in blocks[x.parent] && blocks[x.parent][x.hash] == x
      ensures forall p, h :: p in blocks && h in blocks[p] && h != x.hash ==>
                p in old(blocks) && h in old(blocks)[p] && old(blocks)[p][h] == blocks[p][h]
      ensures forall p, h :: p in old(blocks) && h in old(blocks)[p] && h != x.hash ==> p in blocks && h in blocks[p]
    {
      var siblings := if x.parent in blocks then blocks[x.parent] else map[];
      blocks := blocks[x.parent := siblings[x.hash := x]];
      parents := parents[x.hash := x.parent];
    }

    method GetBlock(h: Hash) returns (r: Option<Orphan>)
      requires Valid()
      ensures r.None? <==> h !in parents
      ensures r.Some? ==> r.value.hash == h && r.value.parent == parents[h] && blocks[parents[h]][h] == r.value
    {
      if h in parents && parents[h] in blocks && h in blocks[parents[h]] { return Some(blocks[parents[h]][h]); }
      return None;
    }

    /** Removes and returns exactly the descendants of `root`, every one after its own parent. */
    method RemoveBlocksByParent(root: Hash) returns (removed: seq<Orphan>)
      requires Valid()
      modifies this
      ensures Valid()
      ensures forall h :: h in Hashes(removed) <==> Descends(old(parents), h, root)
      ensures Distinct(removed) && forall i :: 0 <= i < |removed| ==> After(root, removed, i)
      ensures forall x :: x in removed ==>
                x.parent in old(blocks) && x.hash in old(blocks)[x.parent] && old(blocks)[x.parent][x.hash] == x
      ensures forall h :: h in parents <==> h in old(parents) && !Descends(old(parents), h, root)
      ensures forall h :: h in parents ==> parents[h] == old(parents)[h]
    {
      hide After, Distinct, Descends, Hashes;
      var queue := [root];
      removed := [];
      ghost var blocks0, parents0 := blocks, parents;
      SearchStarts(blocks0, parents0, root);
      while queue != []
        invariant blocks0 == old(blocks) && parents0 == old(parents)
        invariant Searching(blocks0, parents0, root, blocks, parents, queue, removed)
        decreases |blocks|, |queue|
      {
        hide Searching, Inverse, Hashes, HashSet, IsGroup;
        var p := queue[0];
        if p in blocks {
          GroupNamed(blocks0, parents0, root, blocks, parents, queue, removed, p);
          var group := Listed(blocks[p]);
          var hashes := Hashes(group);
          SearchGroup(blocks0, parents0, root, blocks, parents, queue, removed, group);
          Fewer(blocks, p);
          blocks := blocks - {p};
          parents := Dropped(parents, group);
          queue := queue[1..] + hashes;
          removed := removed + group;
        } else {
          SearchSkip(blocks0, parents0, root, blocks, parents, queue, removed);
          queue := queue[1..];
        }
      }
      SearchDone(blocks0, parents0, root, blocks, parents, removed);
    }
  }

  /** The parent of a removed block is the root, or was removed before. */
  predicate After(root: Hash, removed: seq<Orphan>, i: nat)
    requires i < |removed|
  {
    removed[i].parent == root || removed[i].parent in Hashes(removed[..i])
  }

  predicate Distinct(removed: seq<Orphan>) {
    forall i, j :: 0 <= i < j < |removed| ==> removed[i].hash != removed[j].hash
  }

  /** What is left and what was removed make up the old pool. */
  predicate Remains(blocks0: ByParent, parents0: map<Hash, Hash>, blocks: ByParent, parents: map<Hash, Hash>,
                    removed: seq<Orphan>) {
    && (forall p :: p in blocks ==> p in blocks0 && blocks[p] == blocks0[p])
    && (forall x :: x in removed ==>
          && x.parent in blocks0 && x.parent !in blocks
          && x.hash in blocks0[x.parent] && blocks0[x.parent][x.hash] == x)
    && (forall p, h :: p in blocks0 && p !in blocks && h in blocks0[p] ==> h in Hashes(removed))
    && (forall h :: h in parents0 ==> h in parents || h in Hashes(removed))
  }

  ghost predicate Sound(parents0: map<Hash, Hash>, root: Hash, removed: seq<Orphan>, queue: seq<Hash>) {
    && (forall h :: h in Hashes(removed) ==> Descends(parents0, h, root))
    && (forall h :: h in queue ==> h == root || h in Hashes(removed))
  }

  /** Every removed block, and the root, still waits in the queue unless it has no orphans left. */
  predicate Pending(blocks: ByParent, root: Hash, removed: seq<Orphan>, queue: seq<Hash>) {
    && (root in queue || root !in blocks)
    && (forall h :: h in Hashes(removed) ==> h in queue || h !in blocks)
  }

  function HashSet(s: seq<Orphan>): set<Hash> {
    set i | 0 <= i < |s| :: s[i].hash
  }

  lemma {:induction false} HashSetMore(s: seq<Orphan>, i: nat)
    requires i < |s|
    ensures HashSet(s[..i + 1]) == HashSet(s[..i]) + {s[i].hash} && Hashes(s)[i] == s[i].hash
  {
    assert s[..i + 1] == s[..i] + [s[i]];
    forall h | h in HashSet(s[..i]) + {s[i].hash} ensures h in HashSet(s[..i + 1]) {
      if h == s[i].hash { assert s[..i + 1][i].hash == h; }
      else {
        var k :| 0 <= k < |s[..i]| && s[..i][k].hash == h;
        assert s[..i + 1][k].hash == h;
      }
    }
  }

  lemma {:induction false} InHashes(s: seq<Orphan>, h: Hash)
    ensures h in Hashes(s) <==> h in HashSet(s)
    ensures h in Hashes(s) <==> exists i :: 0 <= i < |s| && s[i].hash == h
  {
    if h in HashSet(s) {
      var i :| 0 <= i < |s| && s[i].hash == h;
      assert Hashes(s)[i] == h;
    }
  }

  lemma {:induction false} Fewer(blocks: ByParent, p: Hash)
    requires p in blocks
    ensures |blocks - {p}| < |blocks|
  {
    assert (blocks - {p}).Keys == blocks.Keys - {p};
  }

  // ---------------------------------------------------------------- the search

  /** The invariant of the breadth-first search. */
  ghost predicate Searching(blocks0: ByParent, parents0: map<Hash, Hash>, root: Hash,
                            blocks: ByParent, parents: map<Hash, Hash>, queue: seq<Hash>, removed: seq<Orphan>) {
    && Inverse(blocks0, parents0) && Inverse(blocks, parents)
    && Remains(blocks0, parents0, blocks, parents, removed)
    && Distinct(removed) && (forall i :: 0 <= i < |removed| ==> After(root, removed, i))
    && Sound(parents0, root, removed, queue) && Pending(blocks, root, removed, queue)
  }

  lemma {:induction false} SearchStarts(blocks: ByParent, parents: map<Hash, Hash>, root: Hash)
    requires Inverse(blocks, parents)
    ensures Searching(blocks, parents, root, blocks, parents, [root], [])
  {
  }

  lemma {:induction false} GroupNamed(blocks0: ByParent, parents0: map<Hash, Hash>, root: Hash,
                                      blocks: ByParent, parents: map<Hash, Hash>, queue: seq<Hash>,
                                      removed: seq<Orphan>, p: Hash)
    requires Searching(blocks0, parents0, root, blocks, parents, queue, removed) && p in blocks
    ensures forall h :: h in blocks[p] ==> blocks[p][h].hash == h
  {
  }

  lemma {:induction false} SearchSkip(blocks0: ByParent, parents0: map<Hash, Hash>, root: Hash,
                                      blocks: ByParent, parents: map<Hash, Hash>, queue: seq<Hash>,
                                      removed: seq<Orphan>)
    requires Searching(blocks0, parents0, root, blocks, parents, queue, removed) && queue != [] && queue[0] !in blocks
    ensures Searching(blocks0, parents0, root, blocks, parents, queue[1..], removed)
  {
    hide Inverse, Remains, After, Hashes;
    assert forall h :: h in queue ==> h == queue[0] || h in queue[1..];
  }

  /** A whole group is removed at once. */
  ghost predicate IsGroup(orphans: map<Hash, Orphan>, group: seq<Orphan>) {
    && (forall x :: x in group <==> x.hash in orphans && orphans[x.hash] == x)
    && (forall i, j :: 0 <= i < j < |group| ==> group[i].hash != group[j].hash)
  }

  lemma {:induction false} GroupHashes(orphans: map<Hash, Orphan>, group: seq<Orphan>)
    requires IsGroup(orphans, group) && forall h :: h in orphans ==> orphans[h].hash == h
    ensures HashSet(group) == orphans.Keys
  {
    forall h | h in orphans ensures h in HashSet(group) {
      assert orphans[h] in group;
    }
    forall h | h in HashSet(group) ensures h in orphans {
      var i :| 0 <= i < |group| && group[i].hash == h;
      assert group[i] in group;
    }
  }

  lemma {:induction false} GroupInverse(blocks: ByParent, parents: map<Hash, Hash>, p: Hash)
    requires Inverse(blocks, parents) && p in blocks
    ensures Inverse(blocks - {p}, parents - blocks[p].Keys)
  {
    var rest, left := blocks - {p}, parents - blocks[p].Keys;
    assert forall h :: h in blocks[p] ==> parents[h] == p;
    forall q, h | q in rest && h in rest[q] ensures h in left && left[h] == q {
      assert parents[h] == q;
    }
  }

  lemma {:induction false} HashesJoin(r: seq<Orphan>, s: seq<Orphan>)
    ensures Hashes(r + s) == Hashes(r) + Hashes(s)
  {
  }

  lemma {:induction false} GroupRemains(blocks0: ByParent, parents0: map<Hash, Hash>, blocks: ByParent,
                                        parents: map<Hash, Hash>,
                                        removed: seq<Orphan>, p: Hash, group: seq<Orphan>)
    requires Inverse(blocks0, parents0) && Remains(blocks0, parents0, blocks, parents, removed) && p in blocks
    requires IsGroup(blocks[p], group) && HashSet(group) == blocks[p].Keys
    ensures Remains(blocks0, parents0, blocks - {p}, parents - blocks[p].Keys, removed + group)
  {
    HashesJoin(removed, group);
    forall h ensures h in Hashes(group) <==> h in blocks[p] { InHashes(group, h); }
  }

  lemma {:induction false} GroupDistinct(blocks0: ByParent, parents0: map<Hash, Hash>, blocks: ByParent,
                                         parents: map<Hash, Hash>,
                                         removed: seq<Orphan>, p: Hash, group: seq<Orphan>)
    requires Inverse(blocks0, parents0) && Remains(blocks0, parents0, blocks, parents, removed) && p in blocks
    requires IsGroup(blocks[p], group) && Distinct(removed)
    ensures Distinct(removed + group)
  {
    forall i, j | 0 <= i < |removed| && 0 <= j < |group| ensures removed[i].hash != group[j].hash {
      var x, y := removed[i], group[j];
      assert x in removed && y in group;
      assert parents0[x.hash] == x.parent && y.hash in blocks0[p] && parents0[y.hash] == p;
    }
  }

  lemma {:induction false} GroupAfter(blocks: ByParent, parents: map<Hash, Hash>, root: Hash, removed: seq<Orphan>,
                                      p: Hash, group: seq<Orphan>, i: nat)
    requires Inverse(blocks, parents) && p in blocks && IsGroup(blocks[p], group) && (p == root || p in Hashes(removed))
    requires (forall k :: 0 <= k < |removed| ==> After(root, removed, k)) && i < |removed + group|
    ensures After(root, removed + group, i)
  {
    if i < |removed| {
      assert After(root, removed, i);
      assert (removed + group)[..i] == removed[..i];
    } else {
      assert group[i - |removed|] in group;
      assert (removed + group)[..i] == removed + group[..i - |removed|];
      HashesJoin(removed, group[..i - |removed|]);
    }
  }

  lemma {:induction false} LeadsOn(parents: map<Hash, Hash>, h: Hash, root: Hash)
    requires h in parents && (parents[h] == root || Descends(parents, parents[h], root))
    ensures Descends(parents, h, root)
  {
    if parents[h] == root {
      assert Leads(parents, h, root, 1);
    } else {
      var n: nat :| Leads(parents, parents[h], root, n);
      assert Leads(parents, h, root, n + 1);
    }
  }

  lemma {:induction false} ChildDescends(blocks0: ByParent, parents0: map<Hash, Hash>, root: Hash, p: Hash, h: Hash)
    requires Inverse(blocks0, parents0) && p in blocks0 && h in blocks0[p] && (p == root || Descends(parents0, p, root))
    ensures Descends(parents0, h, root)
  {
    LeadsOn(parents0, h, root);
  }

  lemma {:induction false} GroupSound(blocks0: ByParent, parents0: map<Hash, Hash>, blocks: ByParent,
                                      parents: map<Hash, Hash>,
                                      root: Hash, queue: seq<Hash>, removed: seq<Orphan>, group: seq<Orphan>)
    requires Inverse(blocks0, parents0) && Remains(blocks0, parents0, blocks, parents, removed)
    requires queue != [] && queue[0] in blocks && HashSet(group) == blocks[queue[0]].Keys
    requires Sound(parents0, root, removed, queue)
    ensures Sound(parents0, root, removed + group, queue[1..] + Hashes(group))
  {
    assert queue[0] in blocks0 && blocks[queue[0]] == blocks0[queue[0]];
    hide Descends, Inverse, Remains, Hashes;
    HashesJoin(removed, group);
    assert queue[0] in queue;
    forall h | h in Hashes(group) ensures Descends(parents0, h, root) {
      InHashes(group, h);
      ChildDescends(blocks0, parents0, root, queue[0], h);
    }
  }

  lemma {:induction false} GroupPending(blocks: ByParent, root: Hash, removed: seq<Orphan>, queue: seq<Hash>,
                                        group: seq<Orphan>)
    requires queue != [] && Pending(blocks, root, removed, queue)
    ensures Pending(blocks - {queue[0]}, root, removed + group, queue[1..] + Hashes(group))
  {
    HashesJoin(removed, group);
    assert forall h :: h in queue ==> h == queue[0] || h in queue[1..];
  }

  lemma {:induction false} SearchGroup(blocks0: ByParent, parents0: map<Hash, Hash>, root: Hash,
                                       blocks: ByParent, parents: map<Hash, Hash>, queue: seq<Hash>,
                                       removed: seq<Orphan>, group: seq<Orphan>)
    requires Searching(blocks0, parents0, root, blocks, parents, queue, removed) && queue != [] && queue[0] in blocks
    requires IsGroup(blocks[queue[0]], group)
    ensures Searching(blocks0, parents0, root, blocks - {queue[0]}, parents - HashSet(group),
                      queue[1..] + Hashes(group), removed + group)
  {
    var p := queue[0];
    GroupNamed(blocks0, parents0, root, blocks, parents, queue, removed, p);
    hide Inverse, Remains, Distinct, Pending, IsGroup, Hashes, HashSet, After;
    GroupHashes(blocks[p], group);
    GroupInverse(blocks, parents, p);
    GroupRemains(blocks0, parents0, blocks, parents, removed, p, group);
    GroupDistinct(blocks0, parents0, blocks, parents, removed, p, group);
    forall i | 0 <= i < |removed + group| ensures After(root, removed + group, i) {
      GroupAfter(blocks, parents, root, removed, p, group, i);
    }
    GroupSound(blocks0, parents0, blocks, parents, root, queue, removed, group);
    GroupPending(blocks, root, removed, queue, group);
  }

  /** With an empty queue nothing that descends from the root is left. */
  lemma {:induction false} AllFound(blocks0: ByParent, parents0: map<Hash, Hash>, root: Hash,
                                    blocks: ByParent, parents: map<Hash, Hash>, removed: seq<Orphan>, h: Hash, n: nat)
    requires Searching(blocks0, parents0, root, blocks, parents, [], removed) && Leads(parents0, h, root, n)
    ensures h in Hashes(removed)
    decreases n
  {
    if n > 1 { AllFound(blocks0, parents0, root, blocks, parents, removed, parents0[h], n - 1); }
  }

  lemma {:induction false} SearchDone(blocks0: ByParent, parents0: map<Hash, Hash>, root: Hash,
                                      blocks: ByParent, parents: map<Hash, Hash>, removed: seq<Orphan>)
    requires Searching(blocks0, parents0, root, blocks, parents, [], removed)
    ensures Inverse(blocks, parents) && Distinct(removed) && forall i :: 0 <= i < |removed| ==> After(root, removed, i)
    ensures forall h :: h in Hashes(removed) <==> Descends(parents0, h, root)
    ensures forall x :: x in removed ==>
              x.parent in blocks0 && x.hash in blocks0[x.parent] && blocks0[x.parent][x.hash] == x
    ensures forall h :: h in parents <==> h in parents0 && !Descends(parents0, h, root)
    ensures forall h :: h in parents ==> parents[h] == parents0[h]
  {
    forall h | Descends(parents0, h, root) ensures h in Hashes(removed) {
      var n :| Leads(parents0, h, root, n);
      AllFound(blocks0, parents0, root, blocks, parents, removed, h, n);
    }
    forall h | h in parents ensures h in parents0 && parents[h] == parents0[h] && h !in Hashes(removed) {
      InHashes(removed, h);
      assert forall i :: 0 <= i < |removed| ==> removed[i] in removed;
    }
  }
}
