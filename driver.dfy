// The top of a run (trailBid.py): `TrailBid.runBid` draws a rank for every hasher and then
// resolves every time slot; `printResultByHasher` composes the heading of its report from
// three filter flags.

module Driver {
  import opened Entities
  import opened Slots
  import opened Order
  import Allocation

  // ---- the run ----

  /** Every bid submitted to a trail of `ts` names that trail and a hasher of `hs`, and that
      hasher holds it among its own submissions: the loader files each bid with both. */
  ghost predicate Registered(ts: set<Trail>, hs: set<Hasher>)
    reads set t | t in ts :: t.bids, set h | h in hs :: h.bids
  {
    forall t, b :: t in ts && b in t.bids.list ==> b.trail == t && b.hasher in hs && b in b.hasher.bids.list
  }

  /** No trail and no hasher holds a successful bid yet: `runBid` has not been run. */
  ghost predicate Unrun(ts: set<Trail>, hs: set<Hasher>)
    reads set t | t in ts :: t.successfulBids, set h | h in hs :: h.successfulBids
  {
    && (forall t :: t in ts ==> t.successfulBids.list == [])
    && (forall h :: h in hs ==> h.successfulBids.list == [] && h.successfulBids.slotKeys == [])
  }

  /** `b` is among the submissions `tb` of its trail and `hb` of its hasher. */
  ghost predicate Filed(b: Bid, tb: map<Trail, seq<Bid>>, hb: map<Hasher, seq<Bid>>) {
    b.trail in tb && b in tb[b.trail] && b.hasher in hb && b in hb[b.hasher]
  }

  /** The loaded state a run starts from: the submissions `tb`, every trail of the slots `ss`
      among `ts`, every trail and hasher well formed, and nothing won yet. */
  ghost predicate Prepared(ss: seq<TimeSlot>, ts: set<Trail>, hs: set<Hasher>, tb: map<Trail, seq<Bid>>)
    reads set s | s in ss :: s.trails, ts, set t | t in ts :: t.bids, set t | t in ts :: t.successfulBids
    reads set h | h in hs :: h.bids, set h | h in hs :: h.successfulBids
  {
    TrailSubmissions(ts) == tb && Scheduled(ss, ts) && TrailsReady(ts) && HashersReady(hs) && Unrun(ts, hs)
  }

  /** Before anything was won, no trail is over capacity, unless its capacity is negative,
      and no hasher attends a slot twice. */
  lemma {:induction false} UnrunWithin(ts: set<Trail>, hs: set<Hasher>)
    requires Unrun(ts, hs) && forall t :: t in ts ==> 0 <= t.capacity
    ensures WithinLimits(ts, hs)
  {
    var l := LedgerOf(ts, hs);
    forall t | t in ts ensures |Allocation.At(l.trailWins, t)| <= t.capacity {
      assert Allocation.At(l.trailWins, t) == [];
    }
    forall h | h in hs ensures Allocation.NoDuplicates(Allocation.At(l.hasherSlots, h)) {
      assert Allocation.At(l.hasherSlots, h) == [];
    }
  }

  /** Before anything was won, every win is trivially a submitted bid. */
  lemma {:induction false} UnrunWins(ts: set<Trail>, hs: set<Hasher>, tb: map<Trail, seq<Bid>>, hb: map<Hasher, seq<Bid>>)
    requires Unrun(ts, hs)
    ensures WinsSubmitted(LedgerOf(ts, hs), tb, hb)
  {
    var l := LedgerOf(ts, hs);
    forall t | t in tb ensures Allocation.At(l.trailWins, t) == [] {
    }
    forall h | h in hb ensures Allocation.At(l.hasherWins, h) == [] {
    }
  }

  /** An element of a flattened list is an element of one of the lists. */
  lemma {:induction false} InFlatten<T>(ss: seq<seq<T>>, x: T)
    requires x in Flatten(ss)
    ensures exists k :: 0 <= k < |ss| && x in ss[k]
  {
    var n := |ss| - 1;
    assert Flatten(ss) == Flatten(ss[..n]) + ss[n];
    if x !in ss[n] {
      InFlatten(ss[..n], x);
      var k :| 0 <= k < n && x in ss[..n][k];
      assert x in ss[k];
    }
  }

  /** A bid of the trails `tl` was submitted to one of them. */
  lemma {:induction false} InSomeTrail(tl: seq<Trail>, b: Bid)
    requires b in AllBids(tl)
    ensures exists j :: 0 <= j < |tl| && b in tl[j].bids.list
  {
    InFlatten(BidLists(tl), b);
    var j :| 0 <= j < |BidLists(tl)| && b in BidLists(tl)[j];
    assert b in tl[j].bids.list;
  }

  /** The submissions `tb` and `hb` are those of exactly the trails `ts` and the hashers
      `hs`, and every submitted bid names its trail and is filed with it and its hasher. */
  ghost predicate Filing(ts: set<Trail>, hs: set<Hasher>, tb: map<Trail, seq<Bid>>, hb: map<Hasher, seq<Bid>>) {
    && tb.Keys == ts && hb.Keys == hs
    && SubmittedAmong(tb, ts, hs)
    && forall t, b :: t in tb && b in tb[t] ==> b.trail == t && Filed(b, tb, hb)
  }

  /** Registration gives the filing of the submissions. */
  lemma {:induction false} RegisteredFiling(ts: set<Trail>, hs: set<Hasher>, tb: map<Trail, seq<Bid>>, hb: map<Hasher, seq<Bid>>)
    requires Registered(ts, hs) && TrailSubmissions(ts) == tb && HasherSubmissions(hs) == hb
    ensures Filing(ts, hs, tb, hb)
  {
    RegisteredFiled(ts, hs, tb, hb);
    FiledAmong(ts, hs, tb, hb);
  }

  /** Registration, read off the submissions `tb` and `hb`. */
  lemma {:induction false} RegisteredFiled(ts: set<Trail>, hs: set<Hasher>, tb: map<Trail, seq<Bid>>, hb: map<Hasher, seq<Bid>>)
    requires Registered(ts, hs) && TrailSubmissions(ts) == tb && HasherSubmissions(hs) == hb
    ensures forall t, b :: t in tb && b in tb[t] ==> b.trail == t && Filed(b, tb, hb)
  {
  }

  /** The resolutions `tried` consist of filed bids only. */
  lemma {:induction false} TriedSubmitted(tried: seq<seq<Bid>>, tb: map<Trail, seq<Bid>>, hb: map<Hasher, seq<Bid>>)
    requires forall k, b :: 0 <= k < |tried| && b in tried[k] ==> Filed(b, tb, hb)
    ensures Submitted(Flatten(tried), tb, hb)
  {
    forall b | b in Flatten(tried) ensures Filed(b, tb, hb) {
      InFlatten(tried, b);
    }
  }

  /** `TrailBid` (trailBid.py:38-83) over collections already loaded: the time slots, the
      trails linked to them, and the hashers with their bids. */
  class TrailBid {
    const timeSlots: TimeSlots
    const trails: Trails
    const hashers: Hashers

    constructor(timeSlots: TimeSlots, trails: Trails, hashers: Hashers)
      ensures this.timeSlots == timeSlots && this.trails == trails && this.hashers == hashers
    {
      this.timeSlots := timeSlots;
      this.trails := trails;
      this.hashers := hashers;
    }

    /** The loaded trails. */
    ghost function TrailSet(): set<Trail>
      reads trails
    {
      set t | t in trails.list
    }

    /** The loaded hashers. */
    ghost function HasherSet(): set<Hasher>
      reads hashers
    {
      set h | h in hashers.list
    }

    /** `runBid` (trailBid.py:127-133): every hasher draws a rank, then every time slot is
        resolved, in list order; `draws` is the shuffle's random stream and `slotDraws[i]`
        the one of slot `i`'s own draw. What is promised about a run that starts with no
        successful bid: every trail ends within its capacity and every hasher with at most
        one win per time slot, and every win is a bid that was submitted to its trail and
        by its hasher. The hashers end listed as the global draw left them: shuffled by
        `draws`, numbered, and sorted by the ranks that numbering gave. Slot `k` tries its
        trails' submitted bids in the equitable order, keyed by the wins the slots before it
        left and by the ranks its own draws give, and the wins end as the award rule run over
        all those tries leaves them. The ghost results are the global draw's order, each
        slot's bids in the order tried, the ledger each slot started from and the ranks each
        slot's sort read. */
    method RunBid(draws: seq<nat>, slotDraws: seq<seq<nat>>)
        returns (ghost drawn: seq<Hasher>, ghost tried: seq<seq<Bid>>,
                 ghost before: seq<Allocation.Ledger<Bid, Trail, Hasher>>, ghost ranks: seq<seq<int>>)
      requires hashers.Valid()
      requires Scheduled(timeSlots.list, TrailSet())
      requires TrailsReady(TrailSet()) && HashersReady(HasherSet()) && DistinctWins(TrailSet(), HasherSet())
      requires Registered(TrailSet(), HasherSet())
      requires Unrun(TrailSet(), HasherSet())
      modifies hashers, set h | h in hashers.list
      modifies set t | t in trails.list :: t.successfulBids
      modifies set h | h in hashers.list :: h.successfulBids
      ensures TrailSet() == old(TrailSet()) && HasherSet() == old(HasherSet())
      ensures drawn == Shuffled(old(hashers.list), draws) && hashers.list == SortBy(drawn, DrawnKeys(drawn))
      ensures |tried| == |timeSlots.list|
      ensures AllEquitable(tried, old(SlotTrails(timeSlots.list)), old(TrailSubmissions(TrailSet())),
                           old(HasherSubmissions(HasherSet())), before, slotDraws, ranks)
      ensures SlotLedgers(before, tried, old(LedgerOf(TrailSet(), HasherSet())))
      ensures Linked(Flatten(tried))
      ensures LedgerOf(TrailSet(), HasherSet()) == Allocation.Run(Claims(Flatten(tried)), old(LedgerOf(TrailSet(), HasherSet())))
      ensures (forall t :: t in TrailSet() ==> 0 <= t.capacity) ==> WithinLimits(TrailSet(), HasherSet())
      ensures WinsSubmitted(LedgerOf(TrailSet(), HasherSet()), old(TrailSubmissions(TrailSet())), old(HasherSubmissions(HasherSet())))
    {
      ghost var ts := TrailSet();
      ghost var hs := HasherSet();
      ghost var tb := TrailSubmissions(ts);
      ghost var hb := HasherSubmissions(hs);
      ghost var sl := SlotTrails(timeSlots.list);
      ghost var l0 := LedgerOf(ts, hs);
      RegisteredFiling(ts, hs, tb, hb);
      drawn, tried, before, ranks := Run(draws, slotDraws, ts, hs, tb, hb, sl, l0);
    }

    /** `runBid` over the state at its start: the trails `ts` and hashers `hs`, their
        submissions `tb` and `hb`, the slots' trails `sl` and the ledger `l0`. */
    method Run(draws: seq<nat>, slotDraws: seq<seq<nat>>, ghost ts: set<Trail>, ghost hs: set<Hasher>,
               ghost tb: map<Trail, seq<Bid>>, ghost hb: map<Hasher, seq<Bid>>,
               ghost sl: seq<seq<Trail>>, ghost l0: Allocation.Ledger<Bid, Trail, Hasher>)
        returns (ghost drawn: seq<Hasher>, ghost tried: seq<seq<Bid>>,
                 ghost before: seq<Allocation.Ledger<Bid, Trail, Hasher>>, ghost ranks: seq<seq<int>>)
      requires hashers.Valid() && ts == TrailSet() && hs == HasherSet()
      requires Prepared(timeSlots.list, ts, hs, tb) && DistinctWins(ts, hs) && Filing(ts, hs, tb, hb)
      requires HasherSubmissions(hs) == hb && SlotTrails(timeSlots.list) == sl && LedgerOf(ts, hs) == l0
      modifies hashers, hs, set t | t in ts :: t.successfulBids, set h | h in hs :: h.successfulBids
      ensures ts == TrailSet() && hs == HasherSet()
      ensures drawn == Shuffled(old(hashers.list), draws) && hashers.list == SortBy(drawn, DrawnKeys(drawn))
      ensures |tried| == |sl| && AllEquitable(tried, sl, tb, hb, before, slotDraws, ranks) && SlotLedgers(before, tried, l0)
      ensures Linked(Flatten(tried)) && LedgerOf(ts, hs) == Allocation.Run(Claims(Flatten(tried)), l0)
      ensures (forall t :: t in ts ==> 0 <= t.capacity) ==> WithinLimits(ts, hs)
      ensures WinsSubmitted(LedgerOf(ts, hs), tb, hb)
    {
      drawn := Drawn(draws, ts, hs, tb, hb, sl, l0);
      tried, before, ranks := Resolve(slotDraws, ts, hs, tb, hb, sl, l0);
    }

    /** The first step of `runBid`, with what the later steps need of the state it leaves. */
    method Drawn(draws: seq<nat>, ghost ts: set<Trail>, ghost hs: set<Hasher>, ghost tb: map<Trail, seq<Bid>>,
                 ghost hb: map<Hasher, seq<Bid>>, ghost sl: seq<seq<Trail>>, ghost l0: Allocation.Ledger<Bid, Trail, Hasher>)
        returns (ghost drawn: seq<Hasher>)
      requires hashers.Valid() && ts == TrailSet() && hs == HasherSet()
      requires Prepared(timeSlots.list, ts, hs, tb)
      requires HasherSubmissions(hs) == hb && SlotTrails(timeSlots.list) == sl && LedgerOf(ts, hs) == l0
      modifies hashers, hs
      ensures ts == TrailSet() && hs == HasherSet()
      ensures Prepared(timeSlots.list, ts, hs, tb)
      ensures HasherSubmissions(hs) == hb && SlotTrails(timeSlots.list) == sl && LedgerOf(ts, hs) == l0
      ensures drawn == Shuffled(old(hashers.list), draws) && hashers.list == SortBy(drawn, DrawnKeys(drawn))
    {
      drawn := Readied(draws, ts, hs, tb, hb, sl, l0);
    }

    /** `Draw`, keeping the trails and hashers well formed, what the time slots hold, the ledger and the submissions. */
    method Readied(draws: seq<nat>, ghost ts: set<Trail>, ghost hs: set<Hasher>, ghost tb: map<Trail, seq<Bid>>,
                 ghost hb: map<Hasher, seq<Bid>>, ghost sl: seq<seq<Trail>>, ghost l0: Allocation.Ledger<Bid, Trail, Hasher>)
        returns (ghost drawn: seq<Hasher>)
      requires hashers.Valid() && ts == TrailSet() && hs == HasherSet()
      requires TrailsReady(ts) && HashersReady(hs)
      requires SlotTrails(timeSlots.list) == sl && Scheduled(timeSlots.list, ts)
      requires LedgerOf(ts, hs) == l0 && Unrun(ts, hs)
      requires HasherSubmissions(hs) == hb && TrailSubmissions(ts) == tb
      modifies hashers, hs
      ensures ts == TrailSet() && hs == HasherSet()
      ensures TrailsReady(ts) && HashersReady(hs)
      ensures SlotTrails(timeSlots.list) == sl && Scheduled(timeSlots.list, ts)
      ensures LedgerOf(ts, hs) == l0 && Unrun(ts, hs)
      ensures HasherSubmissions(hs) == hb && TrailSubmissions(ts) == tb
      ensures drawn == Shuffled(old(hashers.list), draws) && hashers.list == SortBy(drawn, DrawnKeys(drawn))
    {
      drawn := Slotted(draws, ts, hs, tb, hb, sl, l0);
    }

    /** `Draw`, keeping what the time slots hold, the ledger and the submissions. */
    method Slotted(draws: seq<nat>, ghost ts: set<Trail>, ghost hs: set<Hasher>, ghost tb: map<Trail, seq<Bid>>,
                 ghost hb: map<Hasher, seq<Bid>>, ghost sl: seq<seq<Trail>>, ghost l0: Allocation.Ledger<Bid, Trail, Hasher>)
        returns (ghost drawn: seq<Hasher>)
      requires hashers.Valid() && ts == TrailSet() && hs == HasherSet()
      requires SlotTrails(timeSlots.list) == sl && Scheduled(timeSlots.list, ts)
      requires LedgerOf(ts, hs) == l0 && Unrun(ts, hs)
      requires HasherSubmissions(hs) == hb && TrailSubmissions(ts) == tb
      modifies hashers, hs
      ensures ts == TrailSet() && hs == HasherSet()
      ensures SlotTrails(timeSlots.list) == sl && Scheduled(timeSlots.list, ts)
      ensures LedgerOf(ts, hs) == l0 && Unrun(ts, hs)
      ensures HasherSubmissions(hs) == hb && TrailSubmissions(ts) == tb
      ensures drawn == Shuffled(old(hashers.list), draws) && hashers.list == SortBy(drawn, DrawnKeys(drawn))
    {
      drawn := Ledgered(draws, ts, hs, tb, hb, l0);
    }

    /** `Draw`, keeping the ledger and the submissions. */
    method Ledgered(draws: seq<nat>, ghost ts: set<Trail>, ghost hs: set<Hasher>, ghost tb: map<Trail, seq<Bid>>,
                    ghost hb: map<Hasher, seq<Bid>>, ghost l0: Allocation.Ledger<Bid, Trail, Hasher>)
        returns (ghost drawn: seq<Hasher>)
      requires hashers.Valid() && ts == TrailSet() && hs == HasherSet()
      requires LedgerOf(ts, hs) == l0 && Unrun(ts, hs)
      requires HasherSubmissions(hs) == hb && TrailSubmissions(ts) == tb
      modifies hashers, hs
      ensures ts == TrailSet() && hs == HasherSet()
      ensures LedgerOf(ts, hs) == l0 && Unrun(ts, hs)
      ensures HasherSubmissions(hs) == hb && TrailSubmissions(ts) == tb
      ensures drawn == Shuffled(old(hashers.list), draws) && hashers.list == SortBy(drawn, DrawnKeys(drawn))
    {
      drawn := Submitted(draws, ts, hs, tb, hb);
    }

    /** `Draw`, keeping the submissions. */
    method Submitted(draws: seq<nat>, ghost ts: set<Trail>, ghost hs: set<Hasher>, ghost tb: map<Trail, seq<Bid>>,
                     ghost hb: map<Hasher, seq<Bid>>)
        returns (ghost drawn: seq<Hasher>)
      requires hashers.Valid() && ts == TrailSet() && hs == HasherSet()
      requires HasherSubmissions(hs) == hb && TrailSubmissions(ts) == tb
      modifies hashers, hs
      ensures ts == TrailSet() && hs == HasherSet()
      ensures HasherSubmissions(hs) == hb && TrailSubmissions(ts) == tb
      ensures drawn == Shuffled(old(hashers.list), draws) && hashers.list == SortBy(drawn, DrawnKeys(drawn))
    {
      drawn := Draw(draws, hs);
    }

    /** `self.hashers.sortByRandom()`, keeping of its contract that the hashers stay the
        same ones, listed in rank order as the shuffle numbered them. */
    method Draw(draws: seq<nat>, ghost hs: set<Hasher>) returns (ghost drawn: seq<Hasher>)
      requires hashers.Valid() && hs == HasherSet()
      modifies hashers, hs
      ensures HasherSet() == old(HasherSet())
      ensures drawn == Shuffled(old(hashers.list), draws) && hashers.list == SortBy(drawn, DrawnKeys(drawn))
    {
      drawn := Shuffled(hashers.list, draws);
      hashers.SortByRandom(draws);
      NumberedKeys(drawn);
      SameMembers(old(hashers.list), hashers.list);
    }

    /** The second step of `runBid`: the time slots, on the state `Drawn` leaves. */
    method Resolve(slotDraws: seq<seq<nat>>, ghost ts: set<Trail>, ghost hs: set<Hasher>,
                   ghost tb: map<Trail, seq<Bid>>, ghost hb: map<Hasher, seq<Bid>>,
                   ghost sl: seq<seq<Trail>>, ghost l0: Allocation.Ledger<Bid, Trail, Hasher>)
        returns (ghost tried: seq<seq<Bid>>, ghost before: seq<Allocation.Ledger<Bid, Trail, Hasher>>,
                 ghost ranks: seq<seq<int>>)
      requires ts == TrailSet() && hs == HasherSet()
      requires Prepared(timeSlots.list, ts, hs, tb) && DistinctWins(ts, hs) && Filing(ts, hs, tb, hb)
      requires HasherSubmissions(hs) == hb && SlotTrails(timeSlots.list) == sl && LedgerOf(ts, hs) == l0
      modifies hs, set t | t in ts :: t.successfulBids, set h | h in hs :: h.successfulBids
      ensures unchanged(trails, hashers)
      ensures |tried| == |sl| && AllEquitable(tried, sl, tb, hb, before, slotDraws, ranks) && SlotLedgers(before, tried, l0)
      ensures Linked(Flatten(tried)) && LedgerOf(ts, hs) == Allocation.Run(Claims(Flatten(tried)), l0)
      ensures (forall t :: t in ts ==> 0 <= t.capacity) ==> WithinLimits(ts, hs)
      ensures WinsSubmitted(LedgerOf(ts, hs), tb, hb)
    {
      forall k, t | 0 <= k < |sl| && t in sl[k] ensures t in ts {
        assert timeSlots.list[k] in timeSlots.list;
      }
      ghost var pools := Pools(sl, ts);
      PoolsFiled(sl, ts, tb, hb);
      if forall t :: t in ts ==> 0 <= t.capacity {
        UnrunWithin(ts, hs);
      }
      UnrunWins(ts, hs, tb, hb);
      tried, before, ranks := Trial(slotDraws, ts, hs, tb, hb, sl, pools, l0);
      Concluded(tried, pools, l0, LedgerOf(ts, hs), tb, hb);
    }

    /** `self.timeSlots.runBid()`, its outcome stated over the bids `pools` of each slot. */
    method Trial(slotDraws: seq<seq<nat>>, ghost ts: set<Trail>, ghost hs: set<Hasher>,
                 ghost tb: map<Trail, seq<Bid>>, ghost hb: map<Hasher, seq<Bid>>,
                 ghost sl: seq<seq<Trail>>, ghost pools: seq<seq<Bid>>, ghost l0: Allocation.Ledger<Bid, Trail, Hasher>)
        returns (ghost tried: seq<seq<Bid>>, ghost before: seq<Allocation.Ledger<Bid, Trail, Hasher>>,
                 ghost ranks: seq<seq<int>>)
      requires sl == SlotTrails(timeSlots.list) && (forall k, t :: 0 <= k < |sl| && t in sl[k] ==> t in ts)
      requires pools == Pools(sl, ts)
      requires Prepared(timeSlots.list, ts, hs, tb) && DistinctWins(ts, hs) && Filing(ts, hs, tb, hb)
      requires HasherSubmissions(hs) == hb && LedgerOf(ts, hs) == l0
      modifies hs, set t | t in ts :: t.successfulBids, set h | h in hs :: h.successfulBids
      ensures unchanged(trails, hashers)
      ensures Reordered(tried, pools)
      ensures AllEquitable(tried, sl, tb, hb, before, slotDraws, ranks) && SlotLedgers(before, tried, l0)
      ensures Linked(Flatten(tried)) && LedgerOf(ts, hs) == Allocation.Run(Claims(Flatten(tried)), l0)
      ensures old(WithinLimits(ts, hs)) ==> WithinLimits(ts, hs)
    {
      tried, before, ranks := Tried(slotDraws, ts, hs, sl, tb, hb, l0);
    }

    /** `self.timeSlots.runBid()`: each slot tries the submitted bids of its trails. */
    method Tried(slotDraws: seq<seq<nat>>, ghost ts: set<Trail>, ghost hs: set<Hasher>, ghost sl: seq<seq<Trail>>,
                 ghost tb: map<Trail, seq<Bid>>, ghost hb: map<Hasher, seq<Bid>>, ghost l0: Allocation.Ledger<Bid, Trail, Hasher>)
        returns (ghost tried: seq<seq<Bid>>, ghost before: seq<Allocation.Ledger<Bid, Trail, Hasher>>,
                 ghost ranks: seq<seq<int>>)
      requires Scheduled(timeSlots.list, ts)
      requires SubmittedAmong(TrailSubmissions(ts), ts, hs)
      requires TrailsReady(ts)
      requires HashersReady(hs)
      requires DistinctWins(ts, hs)
      requires sl == SlotTrails(timeSlots.list) && TrailSubmissions(ts) == tb && HasherSubmissions(hs) == hb && LedgerOf(ts, hs) == l0
      modifies hs, set t | t in ts :: t.successfulBids, set h | h in hs :: h.successfulBids
      ensures unchanged(trails, hashers)
      ensures |tried| == |timeSlots.list|
      ensures forall k :: 0 <= k < |tried| ==> multiset(tried[k]) == multiset(old(AllBids(timeSlots.list[k].trails.list)))
      ensures AllEquitable(tried, sl, tb, hb, before, slotDraws, ranks) && SlotLedgers(before, tried, l0)
      ensures Linked(Flatten(tried)) && LedgerOf(ts, hs) == Allocation.Run(Claims(Flatten(tried)), l0)
      ensures old(WithinLimits(ts, hs)) ==> WithinLimits(ts, hs)
    {
      tried, before, ranks := timeSlots.RunBid(slotDraws, ts, hs);
    }
  }

  /** A draw touches no trail, no time slot's trail list and no bid collection, so what
      the later steps read of them stays as it was. */
  /** Each list of `tried` is a reordering of the list of `pools` at the same place. */
  ghost predicate Reordered(tried: seq<seq<Bid>>, pools: seq<seq<Bid>>) {
    |tried| == |pools| && forall k :: 0 <= k < |pools| ==> multiset(tried[k]) == multiset(pools[k])
  }

  /** The submitted bids of each slot's trails `sl[k]`. */
  ghost function Pools(sl: seq<seq<Trail>>, ts: set<Trail>): (r: seq<seq<Bid>>)
    requires forall k, t :: 0 <= k < |sl| && t in sl[k] ==> t in ts
    reads set t | t in ts :: t.bids
    ensures |r| == |sl| && forall k :: 0 <= k < |sl| ==> r[k] == AllBids(sl[k])
  {
    if sl == [] then [] else Pools(sl[..|sl| - 1], ts) + [AllBids(sl[|sl| - 1])]
  }

  /** Every bid of a slot's pool is filed with its trail and its hasher. */
  lemma {:induction false} PoolsFiled(sl: seq<seq<Trail>>, ts: set<Trail>, tb: map<Trail, seq<Bid>>, hb: map<Hasher, seq<Bid>>)
    requires forall k, t :: 0 <= k < |sl| && t in sl[k] ==> t in ts
    requires TrailSubmissions(ts) == tb
    requires forall t, b :: t in tb && b in tb[t] ==> b.trail == t && Filed(b, tb, hb)
    ensures forall k, b :: 0 <= k < |sl| && b in Pools(sl, ts)[k] ==> Filed(b, tb, hb)
  {
    forall k, b | 0 <= k < |sl| && b in Pools(sl, ts)[k] ensures Filed(b, tb, hb) {
      var tl := sl[k];
      InSomeTrail(tl, b);
      var j :| 0 <= j < |tl| && b in tl[j].bids.list;
      assert tl[j] in ts && tb[tl[j]] == tl[j].bids.list;
    }
  }

  /** Reorderings of filed bids are filed bids. */
  lemma {:induction false} PermutedFiled(tried: seq<seq<Bid>>, pools: seq<seq<Bid>>, tb: map<Trail, seq<Bid>>, hb: map<Hasher, seq<Bid>>)
    requires |tried| == |pools| && forall k :: 0 <= k < |pools| ==> multiset(tried[k]) == multiset(pools[k])
    requires forall k, b :: 0 <= k < |pools| && b in pools[k] ==> Filed(b, tb, hb)
    ensures forall k, b :: 0 <= k < |tried| && b in tried[k] ==> Filed(b, tb, hb)
  {
    forall k, b | 0 <= k < |tried| && b in tried[k] ensures Filed(b, tb, hb) {
      assert b in multiset(pools[k]);
    }
  }

  /** A run of reorderings `tried` of filed pools, from a ledger whose wins were all
      submitted, leaves a ledger whose wins were all submitted. */
  lemma {:induction false} Concluded(tried: seq<seq<Bid>>, pools: seq<seq<Bid>>, l0: Allocation.Ledger<Bid, Trail, Hasher>, l: Allocation.Ledger<Bid, Trail, Hasher>,
                  tb: map<Trail, seq<Bid>>, hb: map<Hasher, seq<Bid>>)
    requires Reordered(tried, pools)
    requires forall k, b :: 0 <= k < |pools| && b in pools[k] ==> Filed(b, tb, hb)
    requires Linked(Flatten(tried)) && l == Allocation.Run(Claims(Flatten(tried)), l0)
    requires WinsSubmitted(l0, tb, hb)
    ensures WinsSubmitted(l, tb, hb)
  {
    PermutedFiled(tried, pools, tb, hb);
    TriedSubmitted(tried, tb, hb);
    RunWinsSubmitted(Flatten(tried), l0, tb, hb);
  }

  /** The submitted bids of the trails of `tb`, seen from their trails and hashers. */
  lemma {:induction false} FiledAmong(ts: set<Trail>, hs: set<Hasher>, tb: map<Trail, seq<Bid>>, hb: map<Hasher, seq<Bid>>)
    requires tb.Keys == ts && hb.Keys == hs
    requires forall t, b :: t in tb && b in tb[t] ==> b.trail == t && Filed(b, tb, hb)
    ensures SubmittedAmong(tb, ts, hs)
  {
    forall t | t in tb ensures Among(tb[t], ts, hs) {
      forall b | b in tb[t] ensures b.trail in ts && b.hasher in hs {
        assert Filed(b, tb, hb);
      }
    }
  }

  // ---- the heading of the report by hasher ----

  /** The categories `printResultByHasher` names, in the order it names them. */
  function Chosen(noBid: bool, successful: bool, unsuccessful: bool): seq<string> {
    (if successful then ["successful"] else [])
    + (if unsuccessful then ["unsuccessful"] else [])
    + (if noBid then ["no bid"] else [])
  }

  /** `headline += ", " + c` for every chosen category `c`. */
  function Prefixed(cs: seq<string>): string {
    if cs == [] then "" else Prefixed(cs[..|cs| - 1]) + ", " + cs[|cs| - 1]
  }

  /** `re.sub("^, ", "", s)`. */
  function DropLeadingSeparator(s: string): string {
    if |s| >= 2 && s[0] == ',' && s[1] == ' ' then s[2..] else s
  }

  /** The index of the last comma of `s`, or -1. */
  function LastComma(s: string): (r: int)
    ensures -1 <= r < |s|
    ensures 0 <= r ==> s[r] == ','
    ensures forall i :: r < i < |s| ==> s[i] != ','
  {
    if s == [] then -1 else if s[|s| - 1] == ',' then |s| - 1 else LastComma(s[..|s| - 1])
  }

  /** `re.sub(", ([^,]*)$", ", and \\1", s)` on a string without a line break: the pattern
      can only match at the last comma, and does when a space follows it. */
  function AndLast(s: string): string {
    var i := LastComma(s);
    if 0 <= i && i + 1 < |s| && s[i + 1] == ' ' then s[..i] + ", and " + s[i + 2..] else s
  }

  /** The heading line of `printResultByHasher` (trailBid.py:166-186), as it would print. */
  function Heading(noBid: bool, successful: bool, unsuccessful: bool): string {
    if (!(noBid || successful || unsuccessful)) || (noBid && successful && unsuccessful) then
      "/// results by hasher ///"
    else if noBid && !successful && !unsuccessful then
      "/// hashers with no bids ///"
    else
      "/// results by " + AndLast(DropLeadingSeparator(Prefixed(Chosen(noBid, successful, unsuccessful)))) + " hasher ///"
  }

  /** The categories joined with ", ", the last with ", and ". */
  function Listed(cs: seq<string>): string {
    if |cs| <= 1 then (if cs == [] then "" else cs[0])
    else Joined(cs[..|cs| - 1]) + ", and " + cs[|cs| - 1]
  }

  /** The categories joined with ", ". */
  function Joined(cs: seq<string>): string {
    if |cs| <= 1 then (if cs == [] then "" else cs[0])
    else Joined(cs[..|cs| - 1]) + ", " + cs[|cs| - 1]
  }

  predicate NoComma(s: string) {
    forall i :: 0 <= i < |s| ==> s[i] != ','
  }

  /** The prefixed categories, rid of the first separator, are the categories joined. */
  lemma {:induction false} PrefixedJoined(cs: seq<string>)
    requires cs != []
    ensures Prefixed(cs) == ", " + Joined(cs)
  {
    var n := |cs| - 1;
    if n > 0 {
      PrefixedJoined(cs[..n]);
    }
  }

  /** Appending `", " + c` with `c` comma-free moves the last comma to just before it. */
  lemma {:induction false} LastCommaAppended(a: string, c: string)
    requires NoComma(c)
    ensures LastComma(a + ", " + c) == |a|
  {
    var s := a + ", " + c;
    if c == [] {
      assert s[..|s| - 1] == a + ",";
    } else {
      assert s[..|s| - 1] == a + ", " + c[..|c| - 1];
      LastCommaAppended(a, c[..|c| - 1]);
    }
  }

  /** A string without commas has no last comma. */
  lemma {:induction false} LastCommaNone(s: string)
    requires NoComma(s)
    ensures LastComma(s) == -1
  {
    if s != [] {
      LastCommaNone(s[..|s| - 1]);
    }
  }

  /** The final rewrite turns the last separator, before a comma-free `c`, into ", and ". */
  lemma {:induction false} AndLastAppended(a: string, c: string)
    requires NoComma(c)
    ensures AndLast(a + ", " + c) == a + ", and " + c
  {
    var s := a + ", " + c;
    LastCommaAppended(a, c);
    assert s[|a| + 1] == ' ';
    assert s[..|a|] == a;
    assert s[|a| + 2..] == c;
  }

  /** For comma-free categories the two rewrites list them with ", " and a final ", and ". */
  lemma {:induction false} Rewritten(cs: seq<string>)
    requires cs != [] && forall k :: 0 <= k < |cs| ==> NoComma(cs[k])
    ensures AndLast(DropLeadingSeparator(Prefixed(cs))) == Listed(cs)
  {
    PrefixedJoined(cs);
    var j := Joined(cs);
    assert (", " + j)[2..] == j;
    assert DropLeadingSeparator(", " + j) == j;
    var n := |cs| - 1;
    if n == 0 {
      assert NoComma(cs[0]);
      LastCommaNone(cs[0]);
    } else {
      assert NoComma(cs[n]);
      AndLastAppended(Joined(cs[..n]), cs[n]);
    }
  }

  /** The three forms of the heading: "results by hasher" with no flag or all three,
      "hashers with no bids" with only `noBid`, and otherwise the chosen categories, in the
      order successful, unsuccessful, no bid, listed with a final ", and ". */
  lemma {:induction false} HeadingForms(noBid: bool, successful: bool, unsuccessful: bool)
    ensures (!(noBid || successful || unsuccessful)) || (noBid && successful && unsuccessful)
            ==> Heading(noBid, successful, unsuccessful) == "/// results by hasher ///"
    ensures noBid && !successful && !unsuccessful ==> Heading(noBid, successful, unsuccessful) == "/// hashers with no bids ///"
    ensures (noBid || successful || unsuccessful) && !(noBid && successful && unsuccessful)
            && !(noBid && !successful && !unsuccessful)
            ==> Heading(noBid, successful, unsuccessful)
                == "/// results by " + Listed(Chosen(noBid, successful, unsuccessful)) + " hasher ///"
  {
    var cs := Chosen(noBid, successful, unsuccessful);
    if noBid || successful || unsuccessful {
      forall k | 0 <= k < |cs| ensures NoComma(cs[k]) {
      }
      Rewritten(cs);
    }
  }
}
