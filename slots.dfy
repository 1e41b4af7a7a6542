/** The collection of time slots (timeSlot.py:169-335): the loader's row loop, `add`,
    `getById`, `sortBySequence` and the run over every slot. */
module Slots {
  import opened Text
  import opened Order
  import opened Entities
  import Allocation

  /** A key of a Python dict that holds both kinds of key: an `int` never equals a `str`. */
  datatype DictKey = IntKey(n: int) | StrKey(s: string)

  // ---- loading rows ----

  /** The error `TimeSlot(row[0], row[1], row[2])` and then `add` raise on a non-empty row,
      or `Ok`: a short row has no `row[2]`, the sequence must convert with `int`, and so
      must the stripped id when `add` tests it. */
  function RowError(row: seq<string>): Outcome
    requires |row| > 0
  {
    if |row| < 3 then IndexError
    else if !IsIntLiteral(row[1]) then ValueError
    else if !IsIntLiteral(Strip(row[0])) then ValueError
    else Ok
  }

  /** The rows the loader turns into slots, and how the load ends: empty rows are skipped,
      and the first row in error stops it, since only `DuplicateError` is caught. */
  function LoadPlan(rows: seq<seq<string>>): (seq<seq<string>>, Outcome) {
    if rows == [] then ([], Ok)
    else if |rows[0]| == 0 then LoadPlan(rows[1..])
    else if RowError(rows[0]) != Ok then ([], RowError(rows[0]))
    else ([rows[0]] + LoadPlan(rows[1..]).0, LoadPlan(rows[1..]).1)
  }

  /** Rows before `i` gave `done`, and the rest of the load is what `rows[i..]` gives. */
  predicate Planned(rows: seq<seq<string>>, i: int, done: seq<seq<string>>)
    requires 0 <= i <= |rows|
  {
    LoadPlan(rows) == (done + LoadPlan(rows[i..]).0, LoadPlan(rows[i..]).1)
  }

  /** One row of the load: skipped, stopping with its error, or kept. */
  lemma {:induction false} LoadAdvance(rows: seq<seq<string>>, i: int, done: seq<seq<string>>)
    requires 0 <= i < |rows| && Planned(rows, i, done)
    ensures |rows[i]| == 0 ==> Planned(rows, i + 1, done)
    ensures |rows[i]| > 0 && RowError(rows[i]) != Ok ==> LoadPlan(rows) == (done, RowError(rows[i]))
    ensures |rows[i]| > 0 && RowError(rows[i]) == Ok ==> Planned(rows, i + 1, done + [rows[i]])
  {
    assert rows[i..][1..] == rows[i + 1..];
    assert done + [] == done;
    var rest := LoadPlan(rows[i + 1..]).0;
    assert (done + [rows[i]]) + rest == done + ([rows[i]] + rest);
  }

  /** The whole load, once every row is read. */
  lemma {:induction false} LoadDone(rows: seq<seq<string>>, done: seq<seq<string>>)
    requires Planned(rows, |rows|, done)
    ensures LoadPlan(rows) == (done, Ok)
  {
    assert rows[|rows|..] == [];
    assert done + [] == done;
  }

  lemma {:induction false} LoadStart(rows: seq<seq<string>>)
    ensures Planned(rows, 0, [])
  {
    assert rows[0..] == rows && [] + LoadPlan(rows).0 == LoadPlan(rows).0;
  }

  /** The non-empty rows, in order. */
  function NonEmpty(rows: seq<seq<string>>): seq<seq<string>> {
    if rows == [] then []
    else if |rows[0]| == 0 then NonEmpty(rows[1..])
    else [rows[0]] + NonEmpty(rows[1..])
  }

  /** The load keeps only well-formed rows of the input, in order; it ends without error
      exactly when every non-empty row is well formed, and then it keeps all of them. The
      error it can end with is `IndexError` or `ValueError`, never `DuplicateError`. */
  lemma {:induction false} LoadPlanFacts(rows: seq<seq<string>>)
    ensures forall row :: row in LoadPlan(rows).0 ==> row in rows && |row| >= 3 && RowError(row) == Ok
    ensures LoadPlan(rows).1 == Ok <==> forall row :: row in rows && |row| > 0 ==> RowError(row) == Ok
    ensures LoadPlan(rows).1 == Ok ==> LoadPlan(rows).0 == NonEmpty(rows)
    ensures LoadPlan(rows).1 == Ok || LoadPlan(rows).1 == IndexError || LoadPlan(rows).1 == ValueError
  {
    if rows != [] {
      LoadPlanFacts(rows[1..]);
      assert forall row :: row in rows[1..] ==> row in rows;
      assert forall row :: row in rows ==> row == rows[0] || row in rows[1..];
    }
  }

  /** Slot `s` was built from `row` and numbered `n`. */
  ghost predicate Made(s: TimeSlot, row: seq<string>, n: int)
    requires |row| >= 3
    reads s
  {
    s.id == Strip(row[0]) && s.name == Strip(row[2]) && s.sequence == n
  }

  /** The slots `ss` were built from `rows`, one each, and numbered 1, 2, ... */
  ghost predicate Built(ss: seq<TimeSlot>, rows: seq<seq<string>>)
    reads set s | s in ss
  {
    |ss| == |rows| && forall k :: 0 <= k < |rows| ==> |rows[k]| >= 3 && Made(ss[k], rows[k], k + 1)
  }

  /** No slot of `ss` has a trail yet. */
  ghost predicate Blank(ss: seq<TimeSlot>)
    reads set s | s in ss :: s.trails
  {
    forall k :: 0 <= k < |ss| ==> ss[k].trails.Valid() && ss[k].trails.list == []
  }

  /** Different positions of `ss` hold different slots with different trail collections. */
  ghost predicate Apart(ss: seq<TimeSlot>) {
    forall j, k :: 0 <= j < k < |ss| ==> ss[j] != ss[k] && ss[j].trails != ss[k].trails
  }

  /** Appending a new slot, built from `row` and numbered next, to slots built so far. */
  lemma {:induction false} Grown(ss: seq<TimeSlot>, rows: seq<seq<string>>, s: TimeSlot, row: seq<string>)
    requires Built(ss, rows) && Blank(ss) && Apart(ss)
    requires |row| >= 3 && Made(s, row, |ss| + 1) && s.trails.Valid() && s.trails.list == []
    requires forall k :: 0 <= k < |ss| ==> ss[k] != s && ss[k].trails != s.trails
    ensures Built(ss + [s], rows + [row]) && Blank(ss + [s]) && Apart(ss + [s])
  {
  }

  /** The sort keys of `sortBySequence`. */
  function SlotSequenceKeys(s: seq<TimeSlot>): (r: seq<Key>)
    reads set x | x in s
    ensures |r| == |s| && forall i :: 0 <= i < |s| ==> r[i] == [Num(s[i].sequence)]
  {
    if s == [] then []
    else
      assert s[|s| - 1] in s;
      SlotSequenceKeys(s[..|s| - 1]) + [[Num(s[|s| - 1].sequence)]]
  }

  // ---- the run over every slot ----

  /** Every trail scheduled in a slot of `ss` is among `ts`. */
  ghost predicate Scheduled(ss: seq<TimeSlot>, ts: set<Trail>)
    reads set s | s in ss :: s.trails
  {
    forall s, t :: s in ss && t in s.trails.list ==> t in ts
  }

  /** The trail lists of the slots `ss`. */
  ghost function SlotTrails(ss: seq<TimeSlot>): (r: seq<seq<Trail>>)
    reads set s | s in ss :: s.trails
    ensures |r| == |ss| && forall k :: 0 <= k < |ss| ==> r[k] == ss[k].trails.list
  {
    if ss == [] then []
    else
      assert ss[|ss| - 1] in ss;
      SlotTrails(ss[..|ss| - 1]) + [ss[|ss| - 1].trails.list]
  }

  /** The submitted bids `m` of every trail point at trails of `ts` and hashers of `hs`. */
  ghost predicate SubmittedAmong(m: map<Trail, seq<Bid>>, ts: set<Trail>, hs: set<Hasher>) {
    forall t :: t in m ==> Among(m[t], ts, hs)
  }

  /** The bids `m` records for the trails `tl`, trail after trail. */
  ghost function BidsFrom(tl: seq<Trail>, m: map<Trail, seq<Bid>>): seq<Bid>
    requires forall t :: t in tl ==> t in m
  {
    if tl == [] then [] else BidsFrom(tl[..|tl| - 1], m) + m[tl[|tl| - 1]]
  }

  /** The bids of trails of `ts` are what their submissions record. */
  lemma {:induction false} AllBidsFrom(tl: seq<Trail>, ts: set<Trail>)
    requires forall t :: t in tl ==> t in ts
    ensures AllBids(tl) == BidsFrom(tl, TrailSubmissions(ts))
  {
    if tl != [] {
      var n := |tl| - 1;
      AllBidsFrom(tl[..n], ts);
      assert BidLists(tl) == BidLists(tl[..n]) + [tl[n].bids.list];
      assert BidLists(tl)[..n] == BidLists(tl[..n]);
    }
  }

  lemma {:induction false} AmongFrom(tl: seq<Trail>, m: map<Trail, seq<Bid>>, ts: set<Trail>, hs: set<Hasher>)
    requires forall t :: t in tl ==> t in m
    requires SubmittedAmong(m, ts, hs)
    ensures Among(BidsFrom(tl, m), ts, hs)
  {
    if tl != [] {
      AmongFrom(tl[..|tl| - 1], m, ts, hs);
      assert tl[|tl| - 1] in tl;
    }
  }

  /** The bids `s` come in order of non-increasing value. */
  predicate ValuesDescending(s: seq<Bid>) {
    forall i, j :: 0 <= i < j < |s| ==> s[j].value <= s[i].value
  }

  /** `s` is slot `tl`'s resolution: a reordering of the bids `m` records for its trails,
      highest value first. */
  ghost predicate Settled(s: seq<Bid>, tl: seq<Trail>, m: map<Trail, seq<Bid>>) {
    (forall t :: t in tl ==> t in m) && multiset(s) == multiset(BidsFrom(tl, m)) && ValuesDescending(s)
  }

  lemma {:induction false} SettledSnoc(tried: seq<seq<Bid>>, s: seq<Bid>, sl: seq<seq<Trail>>, m: map<Trail, seq<Bid>>)
    requires |tried| < |sl|
    requires forall k :: 0 <= k < |tried| ==> Settled(tried[k], sl[k], m)
    requires Settled(s, sl[|tried|], m)
    ensures forall k :: 0 <= k < |tried| + 1 ==> Settled((tried + [s])[k], sl[k], m)
  {
  }

  /** The order `sortByRandom` leaves the bidders of `all` in under the shuffle `draws`:
      once per id, in order of first bid, then shuffled. */
  function DrawnOrder(all: seq<Bid>, draws: seq<nat>): seq<Hasher> {
    Shuffled(AddUniqueHashers([], HashersOf(all)), draws)
  }

  /** `s` is the order in which slot `tl` tries its bids: the bids `m` records for its
      trails, trail after trail, sorted equitably (bid.py:412-418) with the hashers' wins
      `wins` as the slot starts, their submitted bids `hb` and the ranks just drawn by
      `draws`. */
  ghost predicate Equitable(s: seq<Bid>, tl: seq<Trail>, m: map<Trail, seq<Bid>>, hb: map<Hasher, seq<Bid>>,
                            wins: map<Hasher, seq<Bid>>, draws: seq<nat>, ranks: seq<int>) {
    && (forall t :: t in tl ==> t in m)
    && EquitablyOrdered(s, BidsFrom(tl, m), wins, hb, m, DrawnOrder(BidsFrom(tl, m), draws), ranks)
  }

  /** Slot after slot, each slot `k` of `tried` was sorted equitably over the wins
      `before[k]` it started with. */
  ghost predicate AllEquitable(tried: seq<seq<Bid>>, sl: seq<seq<Trail>>, m: map<Trail, seq<Bid>>, hb: map<Hasher, seq<Bid>>,
                               before: seq<Allocation.Ledger<Bid, Trail, Hasher>>, draws: seq<seq<nat>>, ranks: seq<seq<int>>) {
    && |tried| <= |sl| && |before| == |tried| && |ranks| == |tried|
    && forall k {:trigger DrawsFor(draws, k)} :: 0 <= k < |tried| ==> Equitable(tried[k], sl[k], m, hb, before[k].hasherWins, DrawsFor(draws, k), ranks[k])
  }

  lemma {:induction false} AllEquitableSnoc(tried: seq<seq<Bid>>, sl: seq<seq<Trail>>, m: map<Trail, seq<Bid>>, hb: map<Hasher, seq<Bid>>,
                                            before: seq<Allocation.Ledger<Bid, Trail, Hasher>>, draws: seq<seq<nat>>, ranks: seq<seq<int>>,
                                            t: seq<Bid>, l: Allocation.Ledger<Bid, Trail, Hasher>, r: seq<int>)
    requires AllEquitable(tried, sl, m, hb, before, draws, ranks) && |tried| < |sl|
    requires Equitable(t, sl[|tried|], m, hb, l.hasherWins, DrawsFor(draws, |tried|), r)
    ensures AllEquitable(tried + [t], sl, m, hb, before + [l], draws, ranks + [r])
  {
    var n := |tried|;
    forall k | 0 <= k < n + 1
      ensures Equitable((tried + [t])[k], sl[k], m, hb, (before + [l])[k].hasherWins, DrawsFor(draws, k), (ranks + [r])[k])
    {
      if k < n {
        assert (tried + [t])[k] == tried[k] && (before + [l])[k] == before[k] && (ranks + [r])[k] == ranks[k];
      }
    }
  }

  /** The slots before `k` tried the first `|Flatten(tried[..k])|` claims of `cs`, and
      `before[k]` is the ledger those leave. */
  ghost predicate LedgersBefore(before: seq<Allocation.Ledger<Bid, Trail, Hasher>>, tried: seq<seq<Bid>>,
                                cs: seq<Allocation.Claim<Bid, Trail, Hasher>>, l0: Allocation.Ledger<Bid, Trail, Hasher>) {
    && |before| == |tried|
    && forall k {:trigger before[k]} :: 0 <= k < |tried| ==>
         |Flatten(tried[..k])| <= |cs| && before[k] == Allocation.Run(cs[..|Flatten(tried[..k])|], l0)
  }

  lemma {:induction false} LedgersBeforeSnoc(before: seq<Allocation.Ledger<Bid, Trail, Hasher>>, tried: seq<seq<Bid>>, t: seq<Bid>,
                                             cs: seq<Allocation.Claim<Bid, Trail, Hasher>>, cs2: seq<Allocation.Claim<Bid, Trail, Hasher>>,
                                             l0: Allocation.Ledger<Bid, Trail, Hasher>)
    requires LedgersBefore(before, tried, cs, l0)
    requires |cs| == |Flatten(tried)| && |cs| <= |cs2| && cs2[..|cs|] == cs
    ensures LedgersBefore(before + [Allocation.Run(cs, l0)], tried + [t], cs2, l0)
  {
    var n := |tried|;
    assert (tried + [t])[..n] == tried;
    assert cs[..|cs|] == cs;
    forall k | 0 <= k < n + 1
      ensures |Flatten((tried + [t])[..k])| <= |cs2|
      ensures (before + [Allocation.Run(cs, l0)])[k] == Allocation.Run(cs2[..|Flatten((tried + [t])[..k])|], l0)
    {
      if k < n {
        assert (tried + [t])[..k] == tried[..k];
        var bk := before[k];
        assert bk == Allocation.Run(cs[..|Flatten(tried[..k])|], l0);
        var p := |Flatten(tried[..k])|;
        assert cs2[..p] == cs[..p];
      }
    }
  }

  /** `Flatten` of a prefix is a prefix of `Flatten`. */
  lemma {:induction false} FlattenPrefix<T>(ss: seq<seq<T>>, k: int)
    requires 0 <= k <= |ss|
    ensures |Flatten(ss[..k])| <= |Flatten(ss)| && Flatten(ss)[..|Flatten(ss[..k])|] == Flatten(ss[..k])
    decreases |ss|
  {
    if k < |ss| {
      var n := |ss| - 1;
      assert ss[..n][..k] == ss[..k];
      FlattenPrefix(ss[..n], k);
      assert Flatten(ss) == Flatten(ss[..n]) + ss[n];
    } else {
      assert ss[..k] == ss;
    }
  }

  /** The claims of a prefix are a prefix of the claims. */
  lemma {:induction false} ClaimsPrefix(s: seq<Bid>, p: int)
    requires Linked(s) && 0 <= p <= |s|
    ensures Linked(s[..p]) && Claims(s[..p]) == Claims(s)[..p]
  {
    assert forall b :: b in s[..p] ==> b in s;
    forall i | 0 <= i < p ensures Claims(s[..p])[i] == Claims(s)[i] {
      assert s[..p][i] == s[i];
    }
  }

  /** The slots run so far: each tried its trails' bids, highest value first, in the
      equitable order the ledger `before[k]` and its draws gave, and `before[k]` is what the
      first claims of `cs`, those of the slots before it, left of `l0`. */
  ghost predicate SoFar(tried: seq<seq<Bid>>, before: seq<Allocation.Ledger<Bid, Trail, Hasher>>, ranks: seq<seq<int>>,
                        cs: seq<Allocation.Claim<Bid, Trail, Hasher>>, sl: seq<seq<Trail>>, m: map<Trail, seq<Bid>>,
                        hb: map<Hasher, seq<Bid>>, draws: seq<seq<nat>>, l0: Allocation.Ledger<Bid, Trail, Hasher>) {
    && (forall k :: 0 <= k < |tried| && k < |sl| ==> Settled(tried[k], sl[k], m))
    && AllEquitable(tried, sl, m, hb, before, draws, ranks)
    && LedgersBefore(before, tried, cs, l0)
  }

  lemma {:induction false} SoFarSnoc(tried: seq<seq<Bid>>, before: seq<Allocation.Ledger<Bid, Trail, Hasher>>, ranks: seq<seq<int>>,
                                     cs: seq<Allocation.Claim<Bid, Trail, Hasher>>, sl: seq<seq<Trail>>, m: map<Trail, seq<Bid>>,
                                     hb: map<Hasher, seq<Bid>>, draws: seq<seq<nat>>, l0: Allocation.Ledger<Bid, Trail, Hasher>,
                                     t: seq<Bid>, r: seq<int>, cs2: seq<Allocation.Claim<Bid, Trail, Hasher>>)
    requires SoFar(tried, before, ranks, cs, sl, m, hb, draws, l0) && |tried| < |sl|
    requires Settled(t, sl[|tried|], m)
    requires Equitable(t, sl[|tried|], m, hb, Allocation.Run(cs, l0).hasherWins, DrawsFor(draws, |tried|), r)
    requires |cs| == |Flatten(tried)| && |cs| <= |cs2| && cs2[..|cs|] == cs
    ensures SoFar(tried + [t], before + [Allocation.Run(cs, l0)], ranks + [r], cs2, sl, m, hb, draws, l0)
  {
    SettledSnoc(tried, t, sl, m);
    AllEquitableSnoc(tried, sl, m, hb, before, draws, ranks, t, Allocation.Run(cs, l0), r);
    LedgersBeforeSnoc(before, tried, t, cs, cs2, l0);
  }

  /** Each slot's bids are its trails' submitted bids, read off the submissions map. */
  lemma {:induction false} SlotBidsFrom(ss: seq<TimeSlot>, ts: set<Trail>)
    requires Scheduled(ss, ts)
    ensures forall k :: 0 <= k < |ss| ==>
              (forall t :: t in SlotTrails(ss)[k] ==> t in ts && t in TrailSubmissions(ts))
              && AllBids(SlotTrails(ss)[k]) == BidsFrom(SlotTrails(ss)[k], TrailSubmissions(ts))
  {
    forall k | 0 <= k < |ss|
      ensures (forall t :: t in SlotTrails(ss)[k] ==> t in ts && t in TrailSubmissions(ts))
      ensures AllBids(SlotTrails(ss)[k]) == BidsFrom(SlotTrails(ss)[k], TrailSubmissions(ts))
    {
      assert ss[k] in ss;
      AllBidsFrom(SlotTrails(ss)[k], ts);
    }
  }

  /** Between slots: the trails and hashers stay well formed and their submitted bids stay
      `m` and `hb`. */
  ghost predicate Steady(ts: set<Trail>, hs: set<Hasher>, m: map<Trail, seq<Bid>>, hb: map<Hasher, seq<Bid>>)
    reads ts, set t | t in ts :: t.bids, set t | t in ts :: t.successfulBids
    reads set h | h in hs :: h.bids, set h | h in hs :: h.successfulBids
  {
    TrailsReady(ts) && HashersReady(hs) && TrailSubmissions(ts) == m && HasherSubmissions(hs) == hb
  }

  /** Each slot `k` of `tried` started from the ledger `before[k]`, the one the award rule
      leaves once the slots before it have tried their bids, starting from `l0`. */
  ghost predicate SlotLedgers(before: seq<Allocation.Ledger<Bid, Trail, Hasher>>, tried: seq<seq<Bid>>,
                              l0: Allocation.Ledger<Bid, Trail, Hasher>)
    reads set k, b | 0 <= k < |tried| && b in Flatten(tried[..k]) :: b.trail
  {
    && |before| == |tried|
    && forall k {:trigger before[k]} :: 0 <= k < |tried| ==>
         Linked(Flatten(tried[..k])) && before[k] == Allocation.Run(Claims(Flatten(tried[..k])), l0)
  }

  /** `LedgersBefore` read back through the claims of each slot's predecessors. */
  lemma {:induction false} LedgersFromClaims(before: seq<Allocation.Ledger<Bid, Trail, Hasher>>, tried: seq<seq<Bid>>,
                                             l0: Allocation.Ledger<Bid, Trail, Hasher>)
    requires Linked(Flatten(tried)) && LedgersBefore(before, tried, Claims(Flatten(tried)), l0)
    ensures SlotLedgers(before, tried, l0)
  {
    forall k | 0 <= k < |tried|
      ensures Linked(Flatten(tried[..k])) && before[k] == Allocation.Run(Claims(Flatten(tried[..k])), l0)
    {
      FlattenPrefix(tried, k);
      ClaimsPrefix(Flatten(tried), |Flatten(tried[..k])|);
    }
  }

  lemma {:induction false} DescendingClaims(s: seq<Bid>)
    requires Linked(s) && Allocation.ValuesDescend(Claims(s))
    ensures ValuesDescending(s)
  {
    forall i, j | 0 <= i < j < |s| ensures s[j].value <= s[i].value {
      assert Claims(s)[j].value <= Claims(s)[i].value;
    }
  }

  lemma {:induction false} LinkedAppend(a: seq<Bid>, b: seq<Bid>)
    requires Linked(a) && Linked(b)
    ensures Linked(a + b) && Claims(a + b) == Claims(a) + Claims(b)
  {
    assert Linked(a + b);
    assert Claims(a + b) == Claims(a) + Claims(b);
  }

  lemma {:induction false} FlattenSnoc<T>(ss: seq<seq<T>>, s: seq<T>)
    ensures Flatten(ss + [s]) == Flatten(ss) + s
  {
    assert (ss + [s])[..|ss|] == ss;
  }

  /** The draws for slot `i`: a missing entry is an empty stream. */
  function DrawsFor(draws: seq<seq<nat>>, i: int): seq<nat> {
    if 0 <= i < |draws| then draws[i] else []
  }

  /** One slot's `runBid`, seen through the trails' submissions: those stay as they were,
      and the slot resolved a reordering of its trails' submitted bids. */
  method Resolved(slot: TimeSlot, draws: seq<nat>, ghost ts: set<Trail>, ghost hs: set<Hasher>,
                  ghost sl: seq<Trail>, ghost m0: map<Trail, seq<Bid>>, ghost hb0: map<Hasher, seq<Bid>>,
                  ghost done: seq<Bid>)
      returns (ghost ranks: seq<int>, ghost tried: seq<Bid>)
    requires slot.trails.list == sl && forall t :: t in sl ==> t in ts
    requires Linked(done)
    requires TrailSubmissions(ts) == m0 && SubmittedAmong(m0, ts, hs) && HasherSubmissions(hs) == hb0
    requires TrailsReady(ts)
    requires HashersReady(hs)
    requires DistinctWins(ts, hs)
    modifies hs
    modifies set t | t in ts :: t.successfulBids
    modifies set h | h in hs :: h.successfulBids
    ensures TrailsReady(ts)
    ensures HashersReady(hs)
    ensures TrailSubmissions(ts) == m0 && HasherSubmissions(hs) == hb0
    ensures Equitable(tried, sl, m0, hb0, old(LedgerOf(ts, hs)).hasherWins, draws, ranks)
    ensures multiset(tried) == multiset(BidsFrom(sl, m0)) && ValuesDescending(tried)
    ensures Linked(tried) && LedgerOf(ts, hs) == Allocation.Run(Claims(tried), old(LedgerOf(ts, hs)))
    ensures Linked(done) && Claims(done) == old(Claims(done))
  {
    AllBidsFrom(sl, ts);
    AmongFrom(sl, m0, ts, hs);
    ranks, tried := Ran(slot, draws, ts, hs);
    ClaimsKept(done);
  }

  /** One turn of `TimeSlots.runBid`: the slot's resolution extends the claims tried so
      far, `done`, by its own. */
  method RunSlot(slot: TimeSlot, draws: seq<nat>, ghost ts: set<Trail>, ghost hs: set<Hasher>,
                 ghost sl: seq<Trail>, ghost m0: map<Trail, seq<Bid>>,
                 ghost hb0: map<Hasher, seq<Bid>>, ghost done: seq<Bid>, ghost cd: seq<Allocation.Claim<Bid, Trail, Hasher>>,
                 ghost l0: Allocation.Ledger<Bid, Trail, Hasher>)
      returns (ghost ranks: seq<int>, ghost tried: seq<Bid>)
    requires slot.trails.list == sl && forall t :: t in sl ==> t in ts
    requires TrailSubmissions(ts) == m0 && SubmittedAmong(m0, ts, hs) && HasherSubmissions(hs) == hb0
    requires TrailsReady(ts)
    requires HashersReady(hs)
    requires DistinctWins(ts, hs)
    requires Linked(done) && cd == Claims(done) && LedgerOf(ts, hs) == Allocation.Run(cd, l0)
    modifies hs
    modifies set t | t in ts :: t.successfulBids
    modifies set h | h in hs :: h.successfulBids
    ensures TrailsReady(ts)
    ensures HashersReady(hs)
    ensures TrailSubmissions(ts) == m0 && HasherSubmissions(hs) == hb0
    ensures Settled(tried, sl, m0)
    ensures Equitable(tried, sl, m0, hb0, Allocation.Run(cd, l0).hasherWins, draws, ranks)
    ensures Linked(done + tried) && LedgerOf(ts, hs) == Allocation.Run(Claims(done + tried), l0)
    ensures |cd| <= |Claims(done + tried)| && Claims(done + tried)[..|done|] == cd
  {
    ghost var mid := LedgerOf(ts, hs);
    ranks, tried := Resolved(slot, draws, ts, hs, sl, m0, hb0, done);
    Extend(done, tried, cd, l0, mid, ts, hs);
  }

  /** Bids whose trails keep their slots keep their claims. */
  twostate lemma {:induction false} ClaimsKept(s: seq<Bid>)
    requires old(Linked(s))
    requires unchanged(set b | b in s :: b.trail)
    ensures Linked(s) && Claims(s) == old(Claims(s))
    decreases |s|
  {
    if s != [] {
      var n := |s| - 1;
      assert old(Linked(s[..n]));
      ClaimsKept(s[..n]);
      assert s[n] in s;
    }
  }

  /** The ledger after trying `done` and then `tried` is the one after trying `done + tried`. */
  lemma {:induction false} Extend(done: seq<Bid>, tried: seq<Bid>, cd: seq<Allocation.Claim<Bid, Trail, Hasher>>,
               l0: Allocation.Ledger<Bid, Trail, Hasher>, mid: Allocation.Ledger<Bid, Trail, Hasher>,
               ts: set<Trail>, hs: set<Hasher>)
    requires Linked(done) && Claims(done) == cd && mid == Allocation.Run(cd, l0)
    requires Linked(tried) && LedgerOf(ts, hs) == Allocation.Run(Claims(tried), mid)
    ensures Linked(done + tried) && LedgerOf(ts, hs) == Allocation.Run(Claims(done + tried), l0)
    ensures Claims(done + tried)[..|done|] == cd
  {
    LinkedAppend(done, tried);
    Allocation.RunAppend(cd, Claims(tried), l0);
  }

  /** `slot.runBid()`, keeping only what `Resolved` needs of its contract. */
  method Ran(slot: TimeSlot, draws: seq<nat>, ghost ts: set<Trail>, ghost hs: set<Hasher>)
      returns (ghost ranks: seq<int>, ghost tried: seq<Bid>)
    requires Among(AllBids(slot.trails.list), ts, hs)
    requires TrailsReady(ts)
    requires HashersReady(hs)
    requires DistinctWins(ts, hs)
    modifies hs
    modifies set t | t in ts :: t.successfulBids
    modifies set h | h in hs :: h.successfulBids
    ensures TrailsReady(ts)
    ensures HashersReady(hs)
    ensures TrailSubmissions(ts) == old(TrailSubmissions(ts)) && HasherSubmissions(hs) == old(HasherSubmissions(hs))
    ensures EquitablyOrdered(tried, old(AllBids(slot.trails.list)), old(LedgerOf(ts, hs)).hasherWins,
                             old(HasherSubmissions(hs)), old(TrailSubmissions(ts)),
                             DrawnOrder(old(AllBids(slot.trails.list)), draws), ranks)
    ensures multiset(tried) == multiset(old(AllBids(slot.trails.list))) && ValuesDescending(tried)
    ensures Linked(tried) && LedgerOf(ts, hs) == Allocation.Run(Claims(tried), old(LedgerOf(ts, hs)))
  {
    ghost var m0 := TrailSubmissions(ts);
    ranks, tried := RanKeyed(slot, draws, ts, hs);
    forall t | t in ts ensures t.bids.list == m0[t] {
      assert t.bids.role == TrailBids;
    }
    Allocation.SameMaps(TrailSubmissions(ts), m0);
  }

  /** `slot.runBid()`, with the hashers' submitted bids kept. */
  method RanKeyed(slot: TimeSlot, draws: seq<nat>, ghost ts: set<Trail>, ghost hs: set<Hasher>)
      returns (ghost ranks: seq<int>, ghost tried: seq<Bid>)
    requires Among(AllBids(slot.trails.list), ts, hs)
    requires TrailsReady(ts)
    requires HashersReady(hs)
    requires DistinctWins(ts, hs)
    modifies hs
    modifies set t | t in ts :: t.successfulBids
    modifies set h | h in hs :: h.successfulBids
    ensures TrailsReady(ts)
    ensures HashersReady(hs)
    ensures HasherSubmissions(hs) == old(HasherSubmissions(hs))
    ensures EquitablyOrdered(tried, old(AllBids(slot.trails.list)), old(LedgerOf(ts, hs)).hasherWins,
                             old(HasherSubmissions(hs)), old(TrailSubmissions(ts)),
                             DrawnOrder(old(AllBids(slot.trails.list)), draws), ranks)
    ensures multiset(tried) == multiset(old(AllBids(slot.trails.list))) && ValuesDescending(tried)
    ensures Linked(tried) && LedgerOf(ts, hs) == Allocation.Run(Claims(tried), old(LedgerOf(ts, hs)))
  {
    ghost var hb0 := HasherSubmissions(hs);
    ranks, tried := Drew(slot, draws, ts, hs);
    forall h | h in hs ensures h.bids.list == hb0[h] {
      assert h.bids.role == HasherBids;
    }
    Allocation.SameMaps(HasherSubmissions(hs), hb0);
  }

  /** `slot.runBid()`, its shuffle stated as the draws applied to the slot's bidders. */
  method Drew(slot: TimeSlot, draws: seq<nat>, ghost ts: set<Trail>, ghost hs: set<Hasher>)
      returns (ghost ranks: seq<int>, ghost tried: seq<Bid>)
    requires Among(AllBids(slot.trails.list), ts, hs)
    requires TrailsReady(ts)
    requires HashersReady(hs)
    requires DistinctWins(ts, hs)
    modifies hs
    modifies set t | t in ts :: t.successfulBids
    modifies set h | h in hs :: h.successfulBids
    ensures TrailsReady(ts)
    ensures HashersReady(hs)
    ensures EquitablyOrdered(tried, old(AllBids(slot.trails.list)), old(LedgerOf(ts, hs)).hasherWins,
                             old(HasherSubmissions(hs)), old(TrailSubmissions(ts)),
                             DrawnOrder(old(AllBids(slot.trails.list)), draws), ranks)
    ensures multiset(tried) == multiset(old(AllBids(slot.trails.list))) && ValuesDescending(tried)
    ensures Linked(tried) && LedgerOf(ts, hs) == Allocation.Run(Claims(tried), old(LedgerOf(ts, hs)))
  {
    ghost var drawn;
    drawn, ranks, tried := slot.RunBid(draws, ts, hs);
    DescendingClaims(tried);
  }

  /** The time slots, in load order, and the dict `lookupIDs`. */
  class TimeSlots {
    var list: seq<TimeSlot>
    var lookupIDs: map<DictKey, TimeSlot>

    /** The dict is keyed by the slots' string ids and holds listed slots only; every
        listed slot's id is a key. A repeated id leaves two slots listed and the later one
        in the dict. */
    ghost predicate Valid()
      reads this
    {
      && (forall k :: k in lookupIDs ==> k.StrKey? && lookupIDs[k] in list && lookupIDs[k].id == k.s)
      && (forall s :: s in list ==> StrKey(s.id) in lookupIDs)
    }

    constructor()
      ensures Valid() && list == [] && lookupIDs == map[]
    {
      list := [];
      lookupIDs := map[];
    }

    /** `len(self.list)` (timeSlot.py:212-215). */
    function Count(): nat
      reads this
    {
      |list|
    }

    /** The slot stored under `id`, or `None` exactly when no listed slot has that id
        (timeSlot.py:233-238). */
    function GetById(id: string): (r: Option<TimeSlot>)
      requires Valid()
      reads this
      ensures r.Some? ==> r.value in list && r.value.id == id
      ensures r.None? <==> forall s :: s in list ==> s.id != id
    {
      if StrKey(id) in lookupIDs then Some(lookupIDs[StrKey(id)]) else None
    }

    /** `add` (timeSlot.py:219-229). The duplicate test looks up `int(timeSlot.id)` in a
        dict keyed by strings, so it never finds it: a slot whose id converts is always
        appended and replaces the lookup entry of an earlier slot with the same id, and an
        id that does not convert raises `ValueError`. */
    method Add(s: TimeSlot) returns (o: Outcome)
      requires Valid()
      modifies this
      ensures Valid()
      ensures o == Ok <==> IsIntLiteral(s.id)
      ensures o != Ok ==> o == ValueError
      ensures o == Ok ==> list == old(list) + [s] && lookupIDs == old(lookupIDs)[StrKey(s.id) := s]
      ensures o == Ok ==> GetById(s.id) == Some(s)
      ensures o != Ok ==> list == old(list) && lookupIDs == old(lookupIDs)
    {
      if !IsIntLiteral(s.id) {
        return ValueError;
      }
      if IntKey(IntValue(s.id)) !in lookupIDs {
        list := list + [s];
        lookupIDs := lookupIDs[StrKey(s.id) := s];
        o := Ok;
      } else {
        o := DuplicateError;
      }
    }

    /** `sortBySequence` (timeSlot.py:328-335): a stable sort by ascending sequence that
        returns the collection itself. */
    method SortBySequence() returns (r: TimeSlots)
      requires Valid()
      modifies this
      ensures r == this && Valid() && lookupIDs == old(lookupIDs)
      ensures list == SortBy(old(list), old(SlotSequenceKeys(list))) && multiset(list) == multiset(old(list))
      ensures forall i, j :: 0 <= i < j < |list| ==> list[i].sequence <= list[j].sequence
    {
      ghost var m := map s | s in list :: s.sequence;
      var keys := SlotSequenceKeys(list);
      SortByKeeps(list, keys);
      SortByMappedNumbers(list, keys, m);
      Reorder(SortBy(list, keys));
      r := this;
    }

    /** Replace the list by a reordering of itself. */
    method Reorder(r: seq<TimeSlot>)
      requires Valid() && multiset(r) == multiset(list)
      modifies this
      ensures Valid() && lookupIDs == old(lookupIDs) && list == r
    {
      SameMembers(list, r);
      list := r;
    }

    /** `runBid` (timeSlot.py:319-324): resolve every slot once, in list order, slot `k`
        with the shuffle draws `draws[k]`. Slot `k` tries its trails' submitted bids in
        the equitable order: highest value first, then fewest wins so far, fewest bids
        submitted, lowest rank just drawn, least-bid trail and trail id. Its wins so far,
        `before[k]`, are what the award rule left after the slots before it, so wins in an
        earlier slot count against a hasher when a later slot sorts. The successful bids
        end as the award rule run over all those tries one after another leaves them.
        Capacity and one win per slot carry over. The ghost results hold each slot's bids
        in the order they were tried, the ledger each slot started from and the ranks each
        slot's sort read. */
    method RunBid(draws: seq<seq<nat>>, ghost ts: set<Trail>, ghost hs: set<Hasher>)
        returns (ghost tried: seq<seq<Bid>>, ghost before: seq<Allocation.Ledger<Bid, Trail, Hasher>>,
                 ghost ranks: seq<seq<int>>)
      requires Scheduled(list, ts)
      requires SubmittedAmong(TrailSubmissions(ts), ts, hs)
      requires TrailsReady(ts)
      requires HashersReady(hs)
      requires DistinctWins(ts, hs)
      modifies hs
      modifies set t | t in ts :: t.successfulBids
      modifies set h | h in hs :: h.successfulBids
      ensures |tried| == |list|
      ensures TrailsReady(ts)
      ensures HashersReady(hs)
      ensures TrailSubmissions(ts) == old(TrailSubmissions(ts)) && HasherSubmissions(hs) == old(HasherSubmissions(hs))
      ensures AllEquitable(tried, old(SlotTrails(list)), old(TrailSubmissions(ts)), old(HasherSubmissions(hs)), before, draws, ranks)
      ensures SlotLedgers(before, tried, old(LedgerOf(ts, hs)))
      ensures forall k :: 0 <= k < |list| ==> multiset(tried[k]) == multiset(old(AllBids(list[k].trails.list)))
      ensures forall k :: 0 <= k < |list| ==> ValuesDescending(tried[k])
      ensures Linked(Flatten(tried)) && LedgerOf(ts, hs) == Allocation.Run(Claims(Flatten(tried)), old(LedgerOf(ts, hs)))
      ensures old(WithinLimits(ts, hs)) ==> WithinLimits(ts, hs)
    {
      ghost var m0, hb0 := TrailSubmissions(ts), HasherSubmissions(hs);
      ghost var l0 := LedgerOf(ts, hs);
      ghost var within := WithinLimits(ts, hs);
      ghost var sl := SlotTrails(list);
      SlotBidsFrom(list, ts);
      tried, before, ranks := RunSlots(draws, ts, hs, sl, m0, hb0, l0);
      LedgersFromClaims(before, tried, l0);
      if within {
        RunStaysWithin(Flatten(tried), l0, ts, hs);
      }
    }

    /** The loop of `runBid`: slot after slot, each slot's resolution extends the claims
        tried so far. */
    method RunSlots(draws: seq<seq<nat>>, ghost ts: set<Trail>, ghost hs: set<Hasher>, ghost sl: seq<seq<Trail>>,
                    ghost m0: map<Trail, seq<Bid>>, ghost hb0: map<Hasher, seq<Bid>>,
                    ghost l0: Allocation.Ledger<Bid, Trail, Hasher>)
        returns (ghost tried: seq<seq<Bid>>, ghost before: seq<Allocation.Ledger<Bid, Trail, Hasher>>,
                 ghost ranks: seq<seq<int>>)
      requires |sl| == |list| && forall k :: 0 <= k < |list| ==> list[k].trails.list == sl[k]
      requires forall k, t :: 0 <= k < |list| && t in sl[k] ==> t in ts
      requires TrailSubmissions(ts) == m0 && SubmittedAmong(m0, ts, hs) && HasherSubmissions(hs) == hb0
      requires TrailsReady(ts)
      requires HashersReady(hs)
      requires DistinctWins(ts, hs)
      requires LedgerOf(ts, hs) == l0
      modifies hs
      modifies set t | t in ts :: t.successfulBids
      modifies set h | h in hs :: h.successfulBids
      ensures |tried| == |list|
      ensures Steady(ts, hs, m0, hb0)
      ensures Linked(Flatten(tried)) && SoFar(tried, before, ranks, Claims(Flatten(tried)), sl, m0, hb0, draws, l0)
      ensures LedgerOf(ts, hs) == Allocation.Run(Claims(Flatten(tried)), l0)
    {
      var i := 0;
      tried, before, ranks := [], [], [];
      ghost var cs: seq<Allocation.Claim<Bid, Trail, Hasher>> := [];
      while i < |list|
        invariant 0 <= i <= |list| && |tried| == i
        invariant Steady(ts, hs, m0, hb0)
        invariant Linked(Flatten(tried)) && cs == Claims(Flatten(tried)) && SoFar(tried, before, ranks, cs, sl, m0, hb0, draws, l0)
        invariant LedgerOf(ts, hs) == Allocation.Run(cs, l0)
      {
        tried, before, ranks, cs := NextSlot(i, draws, ts, hs, sl, m0, hb0, l0, tried, before, ranks, cs);
        i := i + 1;
      }
    }

    /** One turn of the loop of `runBid`: slot `i` runs after the slots before it. */
    method NextSlot(i: nat, draws: seq<seq<nat>>, ghost ts: set<Trail>, ghost hs: set<Hasher>, ghost sl: seq<seq<Trail>>,
                    ghost m0: map<Trail, seq<Bid>>, ghost hb0: map<Hasher, seq<Bid>>,
                    ghost l0: Allocation.Ledger<Bid, Trail, Hasher>, ghost tried: seq<seq<Bid>>,
                    ghost before: seq<Allocation.Ledger<Bid, Trail, Hasher>>, ghost ranks: seq<seq<int>>,
                    ghost cs: seq<Allocation.Claim<Bid, Trail, Hasher>>)
        returns (ghost tried': seq<seq<Bid>>, ghost before': seq<Allocation.Ledger<Bid, Trail, Hasher>>,
                 ghost ranks': seq<seq<int>>, ghost cs': seq<Allocation.Claim<Bid, Trail, Hasher>>)
      requires i < |list| && |tried| == i
      requires |sl| == |list| && list[i].trails.list == sl[i] && forall t :: t in sl[i] ==> t in ts
      requires Steady(ts, hs, m0, hb0) && SubmittedAmong(m0, ts, hs) && DistinctWins(ts, hs)
      requires Linked(Flatten(tried)) && cs == Claims(Flatten(tried)) && SoFar(tried, before, ranks, cs, sl, m0, hb0, draws, l0)
      requires LedgerOf(ts, hs) == Allocation.Run(cs, l0)
      modifies hs
      modifies set t | t in ts :: t.successfulBids
      modifies set h | h in hs :: h.successfulBids
      ensures |tried'| == i + 1
      ensures Steady(ts, hs, m0, hb0)
      ensures Linked(Flatten(tried')) && cs' == Claims(Flatten(tried')) && SoFar(tried', before', ranks', cs', sl, m0, hb0, draws, l0)
      ensures LedgerOf(ts, hs) == Allocation.Run(cs', l0)
    {
      ghost var r, t;
      r, t := RunSlot(list[i], DrawsFor(draws, i), ts, hs, sl[i], m0, hb0, Flatten(tried), cs, l0);
      FlattenSnoc(tried, t);
      SoFarSnoc(tried, before, ranks, cs, sl, m0, hb0, draws, l0, t, r, Claims(Flatten(tried) + t));
      tried', before', ranks' := tried + [t], before + [Allocation.Run(cs, l0)], ranks + [r];
      cs' := Claims(Flatten(tried'));
    }

    /** The loader's row loop (timeSlot.py:184-190) over rows already split by the CSV
        reader: each non-empty row becomes a slot whose sequence is its 1-based position in
        the collection, whatever the row says, and then is added. The first row in error
        ends the load with that error; the slots added before it stay. */
    method Load(rows: seq<seq<string>>) returns (o: Outcome)
      requires list == [] && lookupIDs == map[]
      modifies this
      ensures Valid() && o == LoadPlan(rows).1 && Built(list, LoadPlan(rows).0)
      ensures Blank(list) && Apart(list)
    {
      var i := 0;
      ghost var done: seq<seq<string>> := [];
      o := Ok;
      LoadStart(rows);
      while i < |rows| && o == Ok
        invariant 0 <= i <= |rows| && Valid()
        invariant o == Ok ==> Planned(rows, i, done)
        invariant o != Ok ==> LoadPlan(rows) == (done, o)
        invariant Built(list, done) && Blank(list) && Apart(list)
      {
        var row := rows[i];
        LoadAdvance(rows, i, done);
        if |row| != 0 {
          ghost var slot: TimeSlot?;
          ghost var before := list;
          o, slot := AddRow(row);
          if o == Ok {
            Grown(before, done, slot, row);
            done := done + [row];
          }
        }
        i := i + 1;
      }
      if o == Ok {
        LoadDone(rows, done);
      }
    }

    /** One non-empty row of that loop (timeSlot.py:188-190): build the slot, number it
        one past the slots so far, and add it. */
    method AddRow(row: seq<string>) returns (o: Outcome, ghost slot: TimeSlot?)
      requires Valid() && |row| > 0
      modifies this
      ensures Valid() && o == RowError(row)
      ensures o != Ok ==> list == old(list)
      ensures o == Ok ==> slot != null && list == old(list) + [slot] && |row| >= 3 && Made(slot, row, |old(list)| + 1)
      ensures o == Ok ==> slot.trails.Valid() && slot.trails.list == []
      ensures o == Ok ==> forall k :: 0 <= k < |old(list)| ==> old(list)[k] != slot && old(list)[k].trails != slot.trails
    {
      slot := null;
      if |row| < 3 {
        return IndexError, slot;
      }
      if !IsIntLiteral(row[1]) {
        return ValueError, slot;
      }
      var s := new TimeSlot(row[0], IntValue(row[1]), row[2]);
      s.sequence := Count() + 1;
      o := Add(s);
      slot := s;
    }
  }
}
