/**
  Blocks being downloaded: which peer was asked for which block, how many tasks each peer may
  hold, and the clean-up that runs against the clock. `now` is the clock reading of a call.
 */
module Inflight {
  import opened Types
  import opened Arithmetic

  const INIT_BLOCKS_IN_TRANSIT_PER_PEER: nat := 16
  const FIRST_LEVEL_MAX: nat := 32
  const MAX_BLOCKS_IN_TRANSIT_PER_PEER: nat := 128
  const BLOCK_DOWNLOAD_TIMEOUT: nat := 30_000
  const COMPACT_PEERS: nat := 2

  type Peer = nat

  datatype BlockId = BlockId(number: nat, hash: Hash)

  datatype InflightState = InflightState(peer: Peer, timestamp: nat)

  // ---------------------------------------------------------------- one peer's scheduler

  datatype Scheduler = Scheduler(tasks: nat, timeouts: nat, breakthroughs: nat, hashes: set<BlockId>)

  const FRESH: Scheduler := Scheduler(INIT_BLOCKS_IN_TRANSIT_PER_PEER, 0, 0, {})

  /** The response time that counts, scaled by the number of peers. */
  function Response(elapsed: nat, peers: nat): nat {
    var (quotient, remainder) := if peers > 8 then (peers / 8, peers % 8) else (1, 0);
    var scaled := elapsed / quotient;
    if scaled < remainder * 100 then 0 else scaled - remainder * 100
  }

  /** The reaction to one response, before breakthroughs are cashed in. */
  function React(s: Scheduler, response: nat): Scheduler {
    if response <= 500 then
      if s.tasks < FIRST_LEVEL_MAX - 1 then s.(tasks := s.tasks + 2) else s.(breakthroughs := s.breakthroughs + 1)
    else if response <= 1000 then
      if s.tasks < FIRST_LEVEL_MAX then s.(tasks := s.tasks + 1) else s.(breakthroughs := s.breakthroughs + 1)
    else if response <= 1500 then s
    else if s.timeouts + 1 > 3 then s.(tasks := if s.tasks == 0 then 0 else s.tasks - 1, timeouts := 0)
    else s.(timeouts := s.timeouts + 1)
  }

  /** More tasks for fast responses, one less for every fourth slow one, never more than the limit. */
  function Adjust(s: Scheduler, elapsed: nat, peers: nat): (r: Scheduler)
    requires s.tasks <= MAX_BLOCKS_IN_TRANSIT_PER_PEER
    ensures r.tasks <= MAX_BLOCKS_IN_TRANSIT_PER_PEER && r.hashes == s.hashes
    ensures s.tasks <= r.tasks + 1 && r.tasks <= s.tasks + 3 && (r.tasks < s.tasks ==> Response(elapsed, peers) > 1500)
  {
    var t := React(s, Response(elapsed, peers));
    if t.breakthroughs > 4
    then t.(tasks := if t.tasks < MAX_BLOCKS_IN_TRANSIT_PER_PEER then t.tasks + 1 else t.tasks, breakthroughs := 0)
    else t
  }

  /** Answered within so many milliseconds; beyond eight peers the time allowed grows with their number. */
  predicate Within(elapsed: nat, peers: nat, ms: nat) {
    if peers <= 8 then elapsed <= ms else elapsed < Times(peers / 8, ms + 100 * (peers % 8) + 1)
  }

  /** One response that counts towards a task beyond the first level: the fifth one brings it. */
  predicate Credits(s: Scheduler, r: Scheduler) {
    if s.breakthroughs < 4 then r == s.(breakthroughs := s.breakthroughs + 1)
    else r == s.(breakthroughs := 0, tasks := if s.tasks < 128 then s.tasks + 1 else 128)
  }

  /** What one response does to a peer: two tasks, one, none, or one less for every fourth. */
  predicate Reacts(s: Scheduler, r: Scheduler, elapsed: nat, peers: nat) {
    if Within(elapsed, peers, 500) then if s.tasks <= 30 then r == s.(tasks := s.tasks + 2) else Credits(s, r)
    else if Within(elapsed, peers, 1000) then if s.tasks <= 31 then r == s.(tasks := s.tasks + 1) else Credits(s, r)
    else if Within(elapsed, peers, 1500) then r == s
    else if s.timeouts < 3 then r == s.(timeouts := s.timeouts + 1)
    else r == s.(timeouts := 0, tasks := if s.tasks > 0 then s.tasks - 1 else 0)
  }

  predicate SchedulerOk(s: Scheduler) {
    s.tasks <= MAX_BLOCKS_IN_TRANSIT_PER_PEER && s.breakthroughs <= 4 && s.timeouts <= 3
  }

  lemma {:induction false} ResponseIs(elapsed: nat, peers: nat, ms: nat)
    ensures Response(elapsed, peers) <= ms <==> Within(elapsed, peers, ms)
  {
    if peers > 8 { DivLess(elapsed, peers / 8, ms + 100 * (peers % 8)); }
  }

  lemma {:induction false} AdjustIs(s: Scheduler, elapsed: nat, peers: nat)
    requires SchedulerOk(s)
    ensures Reacts(s, Adjust(s, elapsed, peers), elapsed, peers) && SchedulerOk(Adjust(s, elapsed, peers))
  {
    hide Response, Within;
    ResponseIs(elapsed, peers, 500);
    ResponseIs(elapsed, peers, 1000);
    ResponseIs(elapsed, peers, 1500);
  }

  /** A peer after responses that took these times. */
  function AfterResponses(s: Scheduler, times: seq<nat>, peers: nat): Scheduler
    requires SchedulerOk(s)
    ensures SchedulerOk(AfterResponses(s, times, peers))
  {
    if times == [] then s else
    var before := AfterResponses(s, times[..|times| - 1], peers);
    AdjustIs(before, times[|times| - 1], peers);
    Adjust(before, times[|times| - 1], peers)
  }

  /** A new peer that answers within half a second gets two more tasks each time, up to the first level. */
  lemma {:induction false} FastStart(times: seq<nat>, peers: nat)
    requires |times| <= 8 && forall i :: 0 <= i < |times| ==> Within(times[i], peers, 500)
    ensures AfterResponses(FRESH, times, peers) == Scheduler(16 + 2 * |times|, 0, 0, {})
  {
    hide Adjust, Within;
    if times != [] {
      var rest := times[..|times| - 1];
      FastStart(rest, peers);
      AdjustIs(AfterResponses(FRESH, rest, peers), times[|times| - 1], peers);
    }
  }

  /** From the first level on, every fifth response within a second brings one more task, up to 128. */
  lemma {:induction false} FastGrowth(s: Scheduler, times: seq<nat>, peers: nat)
    requires SchedulerOk(s) && s.tasks >= 32 && forall i :: 0 <= i < |times| ==> Within(times[i], peers, 1000)
    ensures var n := s.breakthroughs + |times|;
            AfterResponses(s, times, peers) ==
              s.(tasks := if s.tasks + n / 5 < 128 then s.tasks + n / 5 else 128, breakthroughs := n % 5)
  {
    hide Adjust, Within;
    if times != [] {
      var rest := times[..|times| - 1];
      FastGrowth(s, rest, peers);
      AdjustIs(AfterResponses(s, rest, peers), times[|times| - 1], peers);
    }
  }

  /** Every fourth response of more than one and a half seconds takes one task away. */
  lemma {:induction false} SlowDecline(s: Scheduler, times: seq<nat>, peers: nat)
    requires SchedulerOk(s) && forall i :: 0 <= i < |times| ==> !Within(times[i], peers, 1500)
    ensures var n := s.timeouts + |times|;
            AfterResponses(s, times, peers) ==
              s.(tasks := if s.tasks > n / 4 then s.tasks - n / 4 else 0, timeouts := n % 4)
  {
    hide Adjust;
    if times != [] {
      var rest := times[..|times| - 1];
      SlowDecline(s, rest, peers);
      var last := times[|times| - 1];
      AdjustIs(AfterResponses(s, rest, peers), last, peers);
      WithinMore(last, peers, 500, 1500);
      WithinMore(last, peers, 1000, 1500);
      hide Within;
    }
  }

  lemma {:induction false} WithinMore(elapsed: nat, peers: nat, ms: nat, more: nat)
    requires ms <= more
    ensures Within(elapsed, peers, ms) ==> Within(elapsed, peers, more)
  {
    MulMono(ms + 100 * (peers % 8) + 1, more + 100 * (peers % 8) + 1, peers / 8);
  }

  function Punish(s: Scheduler): Scheduler {
    s.(tasks := s.tasks / 2)
  }

  datatype Removal = NotInFlight | Removed | Overflow

  /** The response time; a clock that has gone back counts as no time at all. */
  function Elapsed(st: InflightState, now: nat): nat {
    if now < st.timestamp then 0 else now - st.timestamp
  }

  /** Blocks in flight no higher than the one after the tip. */
  function Due(states: States, tip: nat): set<BlockId> {
    set b | b in states && b.number <= tip + 1
  }

  /** The blocks bs are traced: those that were not yet, from now on. */
  predicate Slowed(before: map<BlockId, nat>, after: map<BlockId, nat>, bs: set<BlockId>, now: nat) {
    && after.Keys == before.Keys + bs
    && forall b :: b in after ==> after[b] == if b in before then before[b] else now
  }

  lemma {:induction false} NoneSlowed(trace: map<BlockId, nat>, now: nat)
    ensures Slowed(trace, trace, {}, now)
  {
  }

  lemma {:induction false} OneSlowed(before: map<BlockId, nat>, after: map<BlockId, nat>, bs: set<BlockId>,
                                     b: BlockId, now: nat)
    requires Slowed(before, after, bs, now)
    ensures Slowed(before, if b in after then after else after[b := now], bs + {b}, now)
  {
  }

  lemma {:induction false} SlowedMeans(before: map<BlockId, nat>, after: map<BlockId, nat>, states: States, tip: nat,
                                       now: nat)
    requires Slowed(before, after, Due(states, tip), now)
    ensures forall b :: b in after <==> b in before || (b in states && b.number <= tip + 1)
    ensures forall b :: b in after ==> after[b] == if b in before then before[b] else now
  {
  }

  // ---------------------------------------------------------------- the invariant

  type Schedulers = map<Peer, Scheduler>

  type States = map<BlockId, InflightState>

  type Compact = map<Hash, set<Peer>>

  /** A block in a peer's set is in flight with that peer as its owner. */
  predicate Owned(schedulers: Schedulers, states: States) {
    forall p, b :: p in schedulers && b in schedulers[p].hashes ==> b in states && states[b].peer == p
  }

  predicate TasksOk(schedulers: Schedulers) {
    forall p :: p in schedulers ==> SchedulerOk(schedulers[p])
  }

  predicate CompactOk(compact: Compact) {
    forall h :: h in compact ==> |compact[h]| <= COMPACT_PEERS
  }

  /** No block is with two peers. */
  lemma {:induction false} PeersDisjoint(schedulers: Schedulers, states: States, p: Peer, q: Peer)
    requires Owned(schedulers, states) && p in schedulers && q in schedulers && p != q
    ensures schedulers[p].hashes !! schedulers[q].hashes
  {
    forall b | b in schedulers[p].hashes ensures b !in schedulers[q].hashes {
      assert states[b].peer == p;
    }
  }

  /** How many blocks the peers hold together. */
  ghost function TotalHeld(schedulers: Schedulers): nat
    decreases |schedulers|
  {
    if schedulers == map[] then 0 else
    var p :| p in schedulers;
    assert |schedulers - {p}| < |schedulers| by { assert (schedulers - {p}).Keys == schedulers.Keys - {p}; }
    |schedulers[p].hashes| + TotalHeld(schedulers - {p})
  }

  /** The peers together hold no more than what is in flight. */
  lemma {:induction false} HeldAtMostInflight(schedulers: Schedulers, states: States)
    requires Owned(schedulers, states)
    ensures TotalHeld(schedulers) <= |states|
    decreases |schedulers|
  {
    if schedulers != map[] {
      var p :| p in schedulers && TotalHeld(schedulers) == |schedulers[p].hashes| + TotalHeld(schedulers - {p});
      var held := schedulers[p].hashes;
      assert (schedulers - {p}).Keys == schedulers.Keys - {p};
      assert (states - held).Keys == states.Keys - held;
      OwnedRest(schedulers, states, p);
      HeldAtMostInflight(schedulers - {p}, states - held);
      assert |states.Keys - held| == |states.Keys| - |held| by { SizeLess(states.Keys, held); }
    }
  }

  lemma {:induction false} OwnedRest(schedulers: Schedulers, states: States, p: Peer)
    requires Owned(schedulers, states) && p in schedulers
    ensures Owned(schedulers - {p}, states - schedulers[p].hashes) && schedulers[p].hashes <= states.Keys
  {
  }

  lemma {:induction false} SizeLess(a: set<BlockId>, b: set<BlockId>)
    requires b <= a
    ensures |a - b| == |a| - |b|
  {
    assert a == (a - b) + b;
  }

  // ---------------------------------------------------------------- the steps as values

  function Drop(schedulers: Schedulers, p: Peer, b: BlockId): Schedulers {
    if p in schedulers then schedulers[p := schedulers[p].(hashes := schedulers[p].hashes - {b})] else schedulers
  }

  function PunishPeer(schedulers: Schedulers, p: Peer): Schedulers {
    if p in schedulers then schedulers[p := Punish(schedulers[p])] else schedulers
  }

  /** The peer gets one more block; a peer without a scheduler gets a new one. */
  function Handed(schedulers: Schedulers, p: Peer, b: BlockId): Schedulers {
    var mine := if p in schedulers then schedulers[p] else FRESH;
    schedulers[p := mine.(hashes := mine.hashes + {b})]
  }

  lemma {:induction false} HandedOwned(schedulers: Schedulers, states: States, p: Peer, b: BlockId, now: nat)
    requires Owned(schedulers, states) && TasksOk(schedulers) && b !in states
    ensures Owned(Handed(schedulers, p, b), states[b := InflightState(p, now)]) && TasksOk(Handed(schedulers, p, b))
  {
  }

  /** The peer's set loses the block, and its allowance follows the response time. */
  function Credited(schedulers: Schedulers, p: Peer, b: BlockId, elapsed: nat, adjustment: bool): Schedulers
    requires TasksOk(schedulers) && p in schedulers
  {
    var rest := schedulers[p].(hashes := schedulers[p].hashes - {b});
    schedulers[p := if adjustment then Adjust(rest, elapsed, |schedulers|) else rest]
  }

  lemma {:induction false} OwnerGone(schedulers: Schedulers, states: States, b: BlockId)
    requires Owned(schedulers, states) && b in states
    ensures states[b].peer !in schedulers ==> Owned(schedulers, states - {b})
  {
  }

  lemma {:induction false} CompactLess(compact: Compact, h: Hash)
    requires CompactOk(compact)
    ensures CompactOk(compact - {h})
  {
  }

  lemma {:induction false} CreditedOwned(schedulers: Schedulers, states: States, b: BlockId, elapsed: nat,
                                         adjustment: bool)
    requires Owned(schedulers, states) && TasksOk(schedulers) && b in states && states[b].peer in schedulers
    ensures var after := Credited(schedulers, states[b].peer, b, elapsed, adjustment);
            Owned(after, states - {b}) && TasksOk(after)
    ensures var p := states[b].peer;
            var rest, after := schedulers[p].(hashes := schedulers[p].hashes - {b}),
                               Credited(schedulers, p, b, elapsed, adjustment);
            && after.Keys == schedulers.Keys && (forall q :: q in after && q != p ==> after[q] == schedulers[q])
            && if adjustment then Reacts(rest, after[p], elapsed, |schedulers|) else after[p] == rest
  {
    hide Adjust, Reacts;
    var p := states[b].peer;
    AdjustIs(schedulers[p].(hashes := schedulers[p].hashes - {b}), elapsed, |schedulers|);
  }

  lemma {:induction false} DropOwned(schedulers: Schedulers, states: States, b: BlockId)
    requires Owned(schedulers, states) && b in states
    ensures Owned(Drop(schedulers, states[b].peer, b), states - {b})
    ensures TasksOk(schedulers) ==> TasksOk(Drop(schedulers, states[b].peer, b))
  {
  }

  lemma {:induction false} PunishOwned(schedulers: Schedulers, states: States, p: Peer)
    requires Owned(schedulers, states) && TasksOk(schedulers)
    ensures Owned(PunishPeer(schedulers, p), states) && TasksOk(PunishPeer(schedulers, p))
  {
  }

  function Expired(states: States, tip: nat, now: nat): set<BlockId> {
    set b | b in states && b.number <= tip + 20 && states[b].timestamp + BLOCK_DOWNLOAD_TIMEOUT < now
  }

  function Slow(trace: map<BlockId, nat>, now: nat): set<BlockId> {
    set b | b in trace && now > 1000 + trace[b]
  }

  class InflightBlocks {
    var schedulers: Schedulers
    var states: States
    var trace: map<BlockId, nat>
    var compact: Compact
    var restartNumber: nat
    var adjustment: bool

    predicate Valid()
      reads this
    {
      Owned(schedulers, states) && TasksOk(schedulers) && CompactOk(compact)
    }

    constructor ()
      ensures Valid() && states == map[] && schedulers == map[] && compact == map[] && trace == map[]
      ensures restartNumber == 0 && adjustment
    {
      schedulers, states, trace, compact, restartNumber, adjustment := map[], map[], map[], map[], 0, true;
    }

    /** At most two peers reconstruct the same compact block. */
    method CompactReconstruct(peer: Peer, hash: Hash) returns (accepted: bool)
      requires Valid()
      modifies this`compact
      ensures Valid() && hash in compact
      ensures forall h :: h != hash ==>
                (h in compact <==> h in old(compact)) && (h in compact ==> compact[h] == old(compact)[h])
      ensures var before := if hash in old(compact) then old(compact)[hash] else {};
              && compact[hash] == (if |before| >= 2 then before else before + {peer})
              && accepted == (|before| < 2 && peer !in before)
    {
      var entry := if hash in compact then compact[hash] else {};
      compact := compact[hash := entry];
      if |entry| >= 2 { return false; }
      compact := compact[hash := entry + {peer}];
      return peer !in entry;
    }

    method RemoveCompact(peer: Peer, hash: Hash)
      requires Valid()
      modifies this`compact, this`trace
      ensures Valid()
      ensures compact ==
              if hash in old(compact) then old(compact)[hash := old(compact)[hash] - {peer}] else old(compact)
      ensures trace == map b | b in old(trace) && b.hash != hash :: old(trace)[b]
    {
      if hash in compact { compact := compact[hash := compact[hash] - {peer}]; }
      trace := map b | b in trace && b.hash != hash :: trace[b];
    }

    /** A block in flight, or being rebuilt from a compact block, is not asked for again. */
    method Insert(peer: Peer, block: BlockId, now: nat) returns (asked: bool)
      requires Valid()
      modifies this
      ensures Valid()
      ensures asked == (block.hash !in old(compact) && block !in old(states))
      ensures compact == old(compact) && restartNumber == old(restartNumber) && adjustment == old(adjustment)
      ensures !asked ==> states == old(states) && schedulers == old(schedulers)
      ensures asked ==>
                && states == old(states)[block := InflightState(peer, now)]
                && schedulers.Keys == old(schedulers).Keys + {peer}
                && (forall p :: p in old(schedulers) && p != peer ==> schedulers[p] == old(schedulers)[p])
                && var mine := if peer in old(schedulers) then old(schedulers)[peer] else Scheduler(16, 0, 0, {});
                   schedulers[peer] == mine.(hashes := mine.hashes + {block})
      ensures trace == if (block.hash in compact && block !in old(trace)) || (asked && restartNumber >= block.number)
                       then old(trace)[block := now + 500] else old(trace)
    {
      hide Owned, TasksOk, CompactOk;
      if block.hash in compact {
        if block !in trace { trace := trace[block := now + 500]; }
        return false;
      }
      if block in states { return false; }
      HandedOwned(schedulers, states, peer, block, now);
      states := states[block := InflightState(peer, now)];
      if restartNumber >= block.number { trace := trace[block := now + 500]; }
      schedulers := Handed(schedulers, peer, block);
      return true;
    }

    /** Exactly the blocks of the peer leave; blocks it owns only in `states` stay. */
    method RemoveByPeer(peer: Peer) returns (known: bool)
      requires Valid()
      modifies this
      ensures Valid() && known == (peer in old(schedulers)) && schedulers == old(schedulers) - {peer}
      ensures states == if known then old(states) - old(schedulers)[peer].hashes else old(states)
      ensures trace == if known then old(trace) - old(schedulers)[peer].hashes else old(trace)
      ensures Thinned(old(compact), compact, peer, if known then old(schedulers)[peer].hashes else {})
    {
      ThinnedNot(compact, peer);
      hide Owned, CompactOk, Thinned;
      if peer !in schedulers {
        assert schedulers - {peer} == schedulers;
        return false;
      }
      var rest := schedulers[peer].hashes;
      ghost var mine := rest;
      assert mine - rest == {};
      OwnedRest(schedulers, states, peer);
      schedulers := schedulers - {peer};
      while rest != {}
        invariant rest <= mine && mine == old(schedulers)[peer].hashes && schedulers == old(schedulers) - {peer}
        invariant states == old(states) - (mine - rest) && trace == old(trace) - (mine - rest)
        invariant CompactOk(compact) && Thinned(old(compact), compact, peer, mine - rest)
        decreases |rest|
      {
        var b :| b in rest;
        FewerPeers(old(compact), compact, peer, mine - rest, b);
        if b.hash in compact { compact := compact[b.hash := compact[b.hash] - {peer}]; }
        MinusMore(old(states), old(trace), mine, rest, b);
        states := states - {b};
        trace := trace - {b};
        rest := rest - {b};
      }
      assert mine - rest == mine;
      return true;
    }

    /**
      A received block: its owner is credited or charged for the response time. A clock that has
      gone back since the request makes the subtraction of the adjustment overflow; by then all but
      the trace has changed.
     */
    method RemoveByBlock(block: BlockId, now: nat) returns (r: Removal)
      requires Valid()
      modifies this
      ensures Valid() && adjustment == old(adjustment) && restartNumber == old(restartNumber)
      ensures r == NotInFlight <==> block !in old(states)
      ensures r == Overflow <==>
                && block in old(states) && adjustment && old(states)[block].peer in old(schedulers)
                && now < old(states)[block].timestamp
      ensures states == old(states) - {block}
      ensures block !in old(states) || old(states)[block].peer !in old(schedulers) ==>
                schedulers == old(schedulers) && trace == old(trace) && compact == old(compact)
      ensures block in old(states) && old(states)[block].peer in old(schedulers) ==>
                && compact == old(compact) - {block.hash}
                && trace == (if r == Overflow then old(trace) else old(trace) - {block})
                && schedulers.Keys == old(schedulers).Keys
                && var st := old(states)[block];
                   var rest := old(schedulers)[st.peer].(hashes := old(schedulers)[st.peer].hashes - {block});
                   && (forall p :: p in schedulers && p != st.peer ==> schedulers[p] == old(schedulers)[p])
                   && if adjustment && r != Overflow
                      then Reacts(rest, schedulers[st.peer], now - st.timestamp, |old(schedulers)|)
                      else schedulers[st.peer] == rest
    {
      hide Adjust, Reacts, Credited, Owned, TasksOk, CompactOk;
      if block !in states { return NotInFlight; }
      var st := states[block];
      OwnerGone(schedulers, states, block);
      states := states - {block};
      if st.peer in schedulers {
        r := if adjustment && now < st.timestamp then Overflow else Removed;
        CreditedOwned(schedulers, old(states), block, Elapsed(st, now), adjustment && r != Overflow);
        CompactLess(compact, block.hash);
        schedulers := Credited(schedulers, st.peer, block, Elapsed(st, now), adjustment && r != Overflow);
        compact := compact - {block.hash};
        if r == Overflow { return; }
        trace := trace - {block};
      }
      return Removed;
    }

    method MarkSlowBlock(tip: nat, now: nat)
      requires Valid()
      modifies this`trace
      ensures Valid()
      ensures forall b :: b in trace <==> b in old(trace) || (b in states && b.number <= tip + 1)
      ensures forall b :: b in trace ==> trace[b] == if b in old(trace) then old(trace)[b] else now
    {
      hide Owned, TasksOk, CompactOk, Slowed, Due;
      var rest := Due(states, tip);
      ghost var all := rest;
      NoneSlowed(trace, now);
      assert all - rest == {};
      while rest != {}
        invariant rest <= all && Slowed(old(trace), trace, all - rest, now)
        decreases |rest|
      {
        var b :| b in rest;
        OneSlowed(old(trace), trace, all - rest, b, now);
        if b !in trace { trace := trace[b := now]; }
        assert all - (rest - {b}) == all - rest + {b};
        rest := rest - {b};
      }
      assert all - rest == all;
      SlowedMeans(old(trace), trace, states, tip, now);
    }

    /** Requests older than the timeout are given up, and their owners reported. */
    method DropExpired(tip: nat, now: nat) returns (late: set<Peer>)
      requires Valid()
      modifies this`schedulers, this`states, this`trace
      ensures Valid() && schedulers.Keys == old(schedulers).Keys
      ensures var expired :=
                set b | b in old(states) && b.number <= tip + 20 && old(states)[b].timestamp + 30_000 < now;
              && expired == Expired(old(states), tip, now)
              && states == old(states) - expired && trace == old(trace) - expired
              && late == Owners(old(states), expired) && Without(old(schedulers), schedulers, expired)
    {
      late := {};
      var rest := Expired(states, tip, now);
      ghost var all := rest;
      assert states - {} == states && trace - {} == trace;
      while rest != {}
        invariant rest <= all && all == Expired(old(states), tip, now)
        invariant Owned(schedulers, states) && TasksOk(schedulers)
        invariant states == old(states) - (all - rest) && trace == old(trace) - (all - rest)
        invariant late == Owners(old(states), all - rest)
        invariant schedulers.Keys == old(schedulers).Keys && Without(old(schedulers), schedulers, all - rest)
        decreases |rest|
      {
        hide Owned, TasksOk, Without, Owners, Expired;
        var b :| b in rest;
        StillExpired(old(states), tip, now, all, rest, b);
        DropOwned(schedulers, states, b);
        DropWithout(old(schedulers), schedulers, states, all - rest, b);
        MoreOwners(old(states), all - rest, b);
        MinusMore(old(states), old(trace), all, rest, b);
        schedulers := Drop(schedulers, states[b].peer, b);
        trace := trace - {b};
        late := late + {states[b].peer};
        states := states - {b};
        rest := rest - {b};
      }
      assert all - rest == all;
    }

    /** Peers that are down to no task at all are dropped; their blocks stay in flight. */
    method DropIdle(late: set<Peer>) returns (late': set<Peer>)
      requires Valid()
      modifies this`schedulers
      ensures Valid() && late' == late + Idle(old(schedulers))
      ensures schedulers == old(schedulers) - Idle(old(schedulers))
    {
      late' := late + Idle(schedulers);
      schedulers := schedulers - Idle(schedulers);
    }

    method PunishAll(peers: set<Peer>)
      requires Valid()
      modifies this`schedulers
      ensures Valid() && Halved(old(schedulers), schedulers, peers, {})
    {
      var rest := peers;
      assert Halved(schedulers, schedulers, peers - rest, {});
      while rest != {}
        invariant Owned(schedulers, states) && TasksOk(schedulers)
        invariant rest <= peers && Halved(old(schedulers), schedulers, peers - rest, {})
        decreases |rest|
      {
        hide Owned, TasksOk, Halved;
        var p :| p in rest;
        PunishOwned(schedulers, states, p);
        HalvedMore(old(schedulers), schedulers, peers - rest, {}, p);
        assert peers - rest + {p} == peers - (rest - {p});
        schedulers := PunishPeer(schedulers, p);
        rest := rest - {p};
      }
      assert peers - rest == peers;
    }

    /** One overdue mark: the owner of the block, or the peers rebuilding it, lose half their tasks. */
    method PunishOne(b: BlockId)
      requires Valid()
      modifies this`schedulers, this`states, this`compact, this`restartNumber
      ensures Valid() && states == old(states) - {b}
      ensures restartNumber == if b.number > old(restartNumber) then b.number else old(restartNumber)
      ensures compact == if b in old(states) then old(compact) else old(compact) - {b.hash}
      ensures Halved(old(schedulers), schedulers, Blamed(old(states), old(compact), b), {b})
    {
      hide Halved;
      if b in states {
        var p := states[b].peer;
        DropOwned(schedulers, states, b);
        HalvedDrop(schedulers, states, b);
        PunishOwned(Drop(schedulers, p, b), states - {b}, p);
        schedulers := PunishPeer(Drop(schedulers, p, b), p);
        states := states - {b};
      } else {
        assert states - {b} == states;
        if b.hash in compact {
          var peers := compact[b.hash];
          compact := compact - {b.hash};
          PunishAll(peers);
        } else {
          assert compact - {b.hash} == compact;
          HalvedNone(schedulers);
        }
        HalvedNotHeld(old(schedulers), schedulers, old(states), Blamed(old(states), old(compact), b), b);
      }
      if b.number > restartNumber { restartNumber := b.number; }
    }

    /** Marks older than a second are acted on and forgotten. */
    method PunishSlow(now: nat)
      requires Valid()
      modifies this`schedulers, this`states, this`compact, this`restartNumber, this`trace
      ensures Valid()
      ensures var slow := Slow(old(trace), now);
              && states == old(states) - slow && trace == old(trace) - slow
              && compact == old(compact) - Rebuilt(old(states), old(compact), slow)
              && Punished(old(schedulers), schedulers, old(states), old(compact), slow)
              && Highest(old(restartNumber), slow, restartNumber)
    {
      var rest := Slow(trace, now);
      ghost var all := rest;
      PunishedNone(schedulers, states, compact, trace, restartNumber);
      assert all - rest == {};
      while rest != {}
        invariant rest <= all && all == Slow(old(trace), now) && Valid()
        invariant states == old(states) - (all - rest) && trace == old(trace) - (all - rest)
        invariant compact == old(compact) - Rebuilt(old(states), old(compact), all - rest)
        invariant Punished(old(schedulers), schedulers, old(states), old(compact), all - rest)
        invariant Highest(old(restartNumber), all - rest, restartNumber)
        decreases |rest|
      {
        hide Owned, TasksOk, CompactOk, Slow, Halved, Blamed, Punished, Rebuilt, Highest;
        var b :| b in rest;
        ghost var mid, done := schedulers, all - rest;
        MinusMore(old(states), old(trace), all, rest, b);
        HighestMore(old(restartNumber), done, restartNumber, b);
        RebuiltMore(old(states), old(compact), done, b);
        PunishOne(b);
        PunishedMore(old(schedulers), mid, schedulers, old(states), old(compact), done, b);
        trace := trace - {b};
        rest := rest - {b};
      }
      assert all - rest == all;
    }

    /** `prune`: late requests, idle peers, overdue marks. Reports the peers to disconnect. */
    method Prune(tip: nat, now: nat) returns (late: set<Peer>)
      requires Valid()
      modifies this
      ensures Valid() && adjustment == old(adjustment)
      ensures var expired :=
                set b | b in old(states) && b.number <= tip + 20 && old(states)[b].timestamp + 30_000 < now;
              var slow := set b | b in old(trace) && b !in expired && old(trace)[b] + 1000 < now;
              && states == old(states) - expired - slow && trace == old(trace) - expired - slow
              && compact == old(compact) - Rebuilt(old(states) - expired, old(compact), slow)
              && late == Owners(old(states), expired) + (set p | p in old(schedulers) && old(schedulers)[p].tasks == 0)
              && Pruned(old(schedulers), schedulers, old(states) - expired, old(compact), expired, slow)
              && Highest(if tip + 1 > old(restartNumber) then 0 else old(restartNumber), slow, restartNumber)
    {
      hide Owned, TasksOk, CompactOk, Expired, Slow, Owners, Without, Punished, Rebuilt, Highest, Pruned;
      late := DropExpired(tip, now);
      ghost var mid := schedulers;
      SameIdle(old(schedulers), schedulers, Expired(old(states), tip, now));
      late := DropIdle(late);
      if restartNumber != 0 && tip + 1 > restartNumber { restartNumber := 0; }
      ghost var kept, marked, left := schedulers, trace, states;
      PunishSlow(now);
      ghost var overdue := Expired(old(states), tip, now);
      PrunedIs(old(schedulers), mid, kept, schedulers, left, old(compact), overdue, Slow(marked, now));
      SlowIs(old(trace), overdue, now);
    }
  }

  lemma {:induction false} SlowIs(trace: map<BlockId, nat>, expired: set<BlockId>, now: nat)
    ensures Slow(trace - expired, now) == set b | b in trace && b !in expired && trace[b] + 1000 < now
  {
  }

  function Idle(schedulers: Schedulers): set<Peer> {
    set p | p in schedulers && schedulers[p].tasks == 0
  }

  /** The peers that pay for an overdue block. */
  function Blamed(states: States, compact: Compact, b: BlockId): set<Peer> {
    if b in states then {states[b].peer} else if b.hash in compact then compact[b.hash] else {}
  }

  /** Exactly the given peers lose half their tasks, and all lose the given blocks. */
  predicate Halved(before: Schedulers, after: Schedulers, peers: set<Peer>, bs: set<BlockId>) {
    && after.Keys == before.Keys
    && forall p :: p in after ==>
         after[p] == before[p].(hashes := before[p].hashes - bs,
                                tasks := if p in peers then before[p].tasks / 2 else before[p].tasks)
  }

  lemma {:induction false} HalvedMore(before: Schedulers, after: Schedulers, peers: set<Peer>, bs: set<BlockId>,
                                      p: Peer)
    requires Halved(before, after, peers, bs) && p !in peers
    ensures Halved(before, PunishPeer(after, p), peers + {p}, bs)
  {
  }

  lemma {:induction false} HalvedDrop(schedulers: Schedulers, states: States, b: BlockId)
    requires Owned(schedulers, states) && b in states
    ensures Halved(schedulers, PunishPeer(Drop(schedulers, states[b].peer, b), states[b].peer), {states[b].peer}, {b})
  {
    var p := states[b].peer;
    var after := PunishPeer(Drop(schedulers, p, b), p);
    forall q | q in after
      ensures after[q] == schedulers[q].(hashes := schedulers[q].hashes - {b},
                                         tasks := if q == p then schedulers[q].tasks / 2 else schedulers[q].tasks)
    {
      if q != p { assert schedulers[q].hashes - {b} == schedulers[q].hashes; }
    }
  }

  lemma {:induction false} HalvedNone(schedulers: Schedulers)
    ensures Halved(schedulers, schedulers, {}, {})
  {
  }

  /** A block that is not in flight is in nobody's set. */
  lemma {:induction false} HalvedNotHeld(before: Schedulers, after: Schedulers, states: States, peers: set<Peer>,
                                         b: BlockId)
    requires Owned(before, states) && b !in states && Halved(before, after, peers, {})
    ensures Halved(before, after, peers, {b})
  {
    forall p | p in before ensures before[p].hashes - {b} == before[p].hashes - {} { }
  }

  /** Hashes whose compact-block entry is given up: overdue and not asked for as a block. */
  function Rebuilt(states: States, compact: Compact, bs: set<BlockId>): set<Hash> {
    set b | b in bs && b !in states && b.hash in compact :: b.hash
  }

  function OwnBlocks(states: States, bs: set<BlockId>, p: Peer): set<BlockId> {
    set b | b in bs && b in states && states[b].peer == p
  }

  function OwnRebuilt(states: States, compact: Compact, bs: set<BlockId>, p: Peer): set<Hash> {
    set h | h in Rebuilt(states, compact, bs) && h in compact && p in compact[h]
  }

  /** How often a peer is punished: once per overdue block of its own, once per compact block it rebuilds. */
  function Faults(states: States, compact: Compact, bs: set<BlockId>, p: Peer): nat {
    |OwnBlocks(states, bs, p)| + |OwnRebuilt(states, compact, bs, p)|
  }

  /** Every peer loses the given blocks and, for each of its faults, half its tasks. */
  predicate Punished(before: Schedulers, after: Schedulers, states: States, compact: Compact, bs: set<BlockId>) {
    && after.Keys == before.Keys
    && forall p :: p in after ==>
         after[p] == before[p].(hashes := before[p].hashes - bs,
                                tasks := ShiftRight(before[p].tasks, Faults(states, compact, bs, p)))
  }

  predicate Highest(base: nat, bs: set<BlockId>, r: nat) {
    r >= base && (forall b :: b in bs ==> b.number <= r) && (r == base || exists b :: b in bs && b.number == r)
  }

  lemma {:induction false} HighestMore(base: nat, bs: set<BlockId>, r: nat, b: BlockId)
    requires Highest(base, bs, r)
    ensures Highest(base, bs + {b}, if b.number > r then b.number else r)
  {
    if b.number <= r && r != base {
      var c :| c in bs && c.number == r;
      assert c in bs + {b};
    }
    assert b in bs + {b};
  }

  lemma {:induction false} PunishedNone(schedulers: Schedulers, states: States, compact: Compact,
                                        trace: map<BlockId, nat>, r: nat)
    ensures states - {} == states && trace - {} == trace && compact - Rebuilt(states, compact, {}) == compact
    ensures Punished(schedulers, schedulers, states, compact, {}) && Highest(r, {}, r)
  {
    forall p ensures Faults(states, compact, {}, p) == 0 {
      assert OwnBlocks(states, {}, p) == {} && OwnRebuilt(states, compact, {}, p) == {};
    }
    assert forall p :: p in schedulers ==> schedulers[p].hashes - {} == schedulers[p].hashes;
  }

  lemma {:induction false} RebuiltMore(states: States, compact: Compact, bs: set<BlockId>, b: BlockId)
    requires b !in bs
    ensures var left := compact - Rebuilt(states, compact, bs);
            (if b in states - bs then left else left - {b.hash}) == compact - Rebuilt(states, compact, bs + {b})
  {
    RebuiltStep(states, compact, bs, b);
  }

  lemma {:induction false} RebuiltStep(states: States, compact: Compact, bs: set<BlockId>, b: BlockId)
    ensures Rebuilt(states, compact, bs + {b}) ==
            Rebuilt(states, compact, bs) + (if b !in states && b.hash in compact then {b.hash} else {})
  {
  }

  /** One more overdue block is one more fault for exactly the peers that are blamed for it. */
  lemma {:induction false} FaultsMore(states: States, compact: Compact, bs: set<BlockId>, b: BlockId, p: Peer)
    requires b !in bs
    ensures var blamed := Blamed(states - bs, compact - Rebuilt(states, compact, bs), b);
            Faults(states, compact, bs + {b}, p) == Faults(states, compact, bs, p) + if p in blamed then 1 else 0
  {
    if b in states { OwnMore(states, compact, bs, b, p); } else { RebuiltFault(states, compact, bs, b, p); }
  }

  lemma {:induction false} OwnMore(states: States, compact: Compact, bs: set<BlockId>, b: BlockId, p: Peer)
    requires b !in bs && b in states
    ensures Faults(states, compact, bs + {b}, p) ==
            Faults(states, compact, bs, p) + if p == states[b].peer then 1 else 0
  {
    RebuiltStep(states, compact, bs, b);
    var own := OwnBlocks(states, bs, p);
    assert OwnRebuilt(states, compact, bs + {b}, p) == OwnRebuilt(states, compact, bs, p);
    assert OwnBlocks(states, bs + {b}, p) == if states[b].peer == p then own + {b} else own;
  }

  lemma {:induction false} RebuiltFault(states: States, compact: Compact, bs: set<BlockId>, b: BlockId, p: Peer)
    requires b !in bs && b !in states
    ensures var first := b.hash in compact && b.hash !in Rebuilt(states, compact, bs);
            Faults(states, compact, bs + {b}, p) ==
            Faults(states, compact, bs, p) + if first && p in compact[b.hash] then 1 else 0
  {
    assert OwnBlocks(states, bs + {b}, p) == OwnBlocks(states, bs, p);
    OwnRebuiltMore(states, compact, bs, b, p);
    hide Rebuilt, OwnBlocks, OwnRebuilt;
    var re := OwnRebuilt(states, compact, bs, p);
    if b.hash in compact && p in compact[b.hash] && b.hash in re {
      assert re + {b.hash} == re;
    }
  }

  lemma {:induction false} OwnRebuiltMore(states: States, compact: Compact, bs: set<BlockId>, b: BlockId, p: Peer)
    requires b !in states
    ensures OwnRebuilt(states, compact, bs + {b}, p) ==
            OwnRebuilt(states, compact, bs, p) +
              if b.hash in compact && p in compact[b.hash] then {b.hash} else {}
    ensures b.hash in OwnRebuilt(states, compact, bs, p) <==>
            b.hash in Rebuilt(states, compact, bs) && b.hash in compact && p in compact[b.hash]
  {
    RebuiltStep(states, compact, bs, b);
    hide Rebuilt;
  }

  lemma {:induction false} PunishedMore(before: Schedulers, mid: Schedulers, after: Schedulers, states: States,
                                        compact: Compact, bs: set<BlockId>, b: BlockId)
    requires Punished(before, mid, states, compact, bs) && b !in bs
    requires Halved(mid, after, Blamed(states - bs, compact - Rebuilt(states, compact, bs), b), {b})
    ensures Punished(before, after, states, compact, bs + {b})
  {
    hide Blamed, Rebuilt, Faults;
    forall p | p in after
      ensures after[p] == before[p].(hashes := before[p].hashes - (bs + {b}),
                                     tasks := ShiftRight(before[p].tasks, Faults(states, compact, bs + {b}, p)))
    {
      FaultsMore(states, compact, bs, b, p);
      assert before[p].hashes - bs - {b} == before[p].hashes - (bs + {b});
    }
  }

  /** The peers that had tasks left, without the late and the overdue blocks, and with the halvings they earned. */
  ghost predicate Pruned(before: Schedulers, after: Schedulers, states: States, compact: Compact, late: set<BlockId>,
                   slow: set<BlockId>) {
    && (forall p :: p in after <==> p in before && before[p].tasks > 0)
    && forall p :: p in after ==>
         after[p] == before[p].(hashes := before[p].hashes - (late + slow),
                                tasks := ShiftRight(before[p].tasks, Faults(states, compact, slow, p)))
  }

  lemma {:induction false} PrunedIs(before: Schedulers, mid: Schedulers, kept: Schedulers, after: Schedulers,
                                    states: States,
                                    compact: Compact, late: set<BlockId>, slow: set<BlockId>)
    requires Without(before, mid, late) && mid.Keys == before.Keys && Idle(mid) == Idle(before)
    requires kept == mid - Idle(mid)
    requires Punished(kept, after, states, compact, slow)
    ensures Pruned(before, after, states, compact, late, slow)
  {
    hide Faults;
    forall p | p in after ensures after[p].hashes == before[p].hashes - (late + slow) { }
  }

  lemma {:induction false} SameIdle(before: Schedulers, after: Schedulers, bs: set<BlockId>)
    requires Without(before, after, bs) && after.Keys == before.Keys
    ensures Idle(after) == Idle(before)
  {
  }

  function Owners(states: States, bs: set<BlockId>): set<Peer> {
    set b | b in bs && b in states :: states[b].peer
  }

  /** The sets without the given blocks, everything else about the peers as before. */
  predicate Without(before: Schedulers, after: Schedulers, bs: set<BlockId>) {
    forall p :: p in after ==> p in before && after[p] == before[p].(hashes := before[p].hashes - bs)
  }

  lemma {:induction false} StillExpired(states: States, tip: nat, now: nat, all: set<BlockId>, rest: set<BlockId>,
                                        b: BlockId)
    requires all == Expired(states, tip, now) && rest <= all && b in rest
    ensures b in states - (all - rest) && (states - (all - rest))[b] == states[b]
  {
  }

  lemma {:induction false} DropWithout(before: Schedulers, after: Schedulers, states: States, bs: set<BlockId>,
                                       b: BlockId)
    requires Without(before, after, bs) && Owned(after, states) && b in states
    ensures Without(before, Drop(after, states[b].peer, b), bs + {b})
    ensures Drop(after, states[b].peer, b).Keys == after.Keys
  {
  }

  lemma {:induction false} MoreOwners(states: States, bs: set<BlockId>, b: BlockId)
    requires b in states
    ensures Owners(states, bs + {b}) == Owners(states, bs) + {states[b].peer}
  {
  }

  lemma {:induction false} MinusMore(states: States, trace: map<BlockId, nat>, all: set<BlockId>, rest: set<BlockId>,
                                     b: BlockId)
    requires rest <= all && b in rest
    ensures all - (rest - {b}) == all - rest + {b}
    ensures states - (all - rest) - {b} == states - (all - rest + {b})
    ensures trace - (all - rest) - {b} == trace - (all - rest + {b})
  {
    assert all - (rest - {b}) == all - rest + {b};
  }

  function HashesIn(bs: set<BlockId>): set<Hash> {
    set b | b in bs :: b.hash
  }

  /** The peer left exactly the entries of the given blocks. */
  predicate Thinned(before: Compact, after: Compact, p: Peer, bs: set<BlockId>) {
    && after.Keys == before.Keys
    && forall h :: h in after ==> after[h] == if h in HashesIn(bs) then before[h] - {p} else before[h]
  }

  lemma {:induction false} ThinnedNot(compact: Compact, p: Peer)
    ensures Thinned(compact, compact, p, {})
  {
  }

  lemma {:induction false} FewerPeers(before: Compact, compact: Compact, p: Peer, bs: set<BlockId>, b: BlockId)
    requires CompactOk(compact) && Thinned(before, compact, p, bs)
    ensures var after := if b.hash in compact then compact[b.hash := compact[b.hash] - {p}] else compact;
            CompactOk(after) && Thinned(before, after, p, bs + {b})
  {
    FewerCompact(compact, p, b.hash);
    assert HashesIn(bs + {b}) == HashesIn(bs) + {b.hash};
    hide HashesIn, CompactOk;
    var after := if b.hash in compact then compact[b.hash := compact[b.hash] - {p}] else compact;
    forall h | h in after ensures after[h] == if h in HashesIn(bs + {b}) then before[h] - {p} else before[h] { }
  }

  lemma {:induction false} FewerCompact(compact: Compact, p: Peer, h: Hash)
    requires CompactOk(compact)
    ensures CompactOk(if h in compact then compact[h := compact[h] - {p}] else compact)
  {
    if h in compact { SizeAtMost(compact[h] - {p}, compact[h]); }
  }

  lemma {:induction false} SizeAtMost(a: set<Peer>, b: set<Peer>)
    requires a <= b
    ensures |a| <= |b|
  {
    assert b == a + (b - a);
  }
}
