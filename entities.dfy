/** The objects of the trail-bid engine: bids, trails, hashers and time slots, and the
    collections that index them (bid.py, trail.py, hasher.py, timeSlot.py). The Python
    modules import one another, so the classes live in one module.

    Python exceptions become `Outcome` values. Every trail and hasher builds its own two
    `Bids` collections, submitted and successful; queries build loose ones. A ghost tag
    on every `Bids` records which of these it is, which tells them apart. */
module Entities {
  import opened Text
  import opened Order
  import Allocation

  /** The exceptions the operations raise (`resource.DuplicateError` and Python's own). */
  datatype Outcome = Ok | DuplicateError | NameError | AttributeError | ValueError | IndexError

  /** What a `Bids` object is used for: built by a query, or one of the two collections
      of a trail or of a hasher. */
  datatype Role = Loose | TrailBids | TrailWins | HasherBids | HasherWins

  /** Whose collection a `Bids` object is: no one's, or the trail or hasher with that id. */
  datatype Owner = Nobody | TrailOwner(trailId: string) | HasherOwner(hasherId: int)

  // ---- specification functions on sequences of bids ----

  /** `sum(bid.value for bid in s)`. */
  function SumValues(s: seq<Bid>): int {
    if s == [] then 0 else SumValues(s[..|s| - 1]) + s[|s| - 1].value
  }

  /** The bids of hasher `id`, in order. */
  function ByHasher(s: seq<Bid>, id: int): seq<Bid> {
    if s == [] then [] else ByHasher(s[..|s| - 1], id) + (if s[|s| - 1].hasher.id == id then [s[|s| - 1]] else [])
  }

  /** The bids whose trail id, stripped, is `id`, in order. */
  function ByTrail(s: seq<Bid>, id: string): seq<Bid> {
    if s == [] then [] else ByTrail(s[..|s| - 1], id) + (if Strip(s[|s| - 1].trail.id) == id then [s[|s| - 1]] else [])
  }

  /** The bids filed under time-slot id `id`, where `keys[i]` is the id bid `s[i]` was
      filed under. */
  function BySlot(s: seq<Bid>, keys: seq<string>, id: string): seq<Bid>
    requires |keys| == |s|
  {
    if s == [] then []
    else BySlot(s[..|s| - 1], keys[..|s| - 1], id) + (if keys[|s| - 1] == id then [s[|s| - 1]] else [])
  }

  /** `if key not in m: m[key] = []` followed by `m[key].append(b)`. */
  function File<K>(m: map<K, seq<Bid>>, key: K, b: Bid): map<K, seq<Bid>> {
    m[key := Allocation.At(m, key) + [b]]
  }

  /** `hasherBids` as `add` builds it: bids appended under `int(bid.hasher.id)`. */
  function HasherIndex(s: seq<Bid>): map<int, seq<Bid>> {
    if s == [] then map[]
    else
      var m := HasherIndex(s[..|s| - 1]);
      var k := s[|s| - 1].hasher.id;
      File(m, k, s[|s| - 1])
  }

  /** `trailBids` as `add` builds it: bids appended under `bid.trail.id.strip()`. */
  function TrailIndex(s: seq<Bid>): map<string, seq<Bid>> {
    if s == [] then map[]
    else
      var m := TrailIndex(s[..|s| - 1]);
      var k := Strip(s[|s| - 1].trail.id);
      File(m, k, s[|s| - 1])
  }

  /** `timeSlotBids` as `add` builds it: bids appended under the slot id of their trail. */
  function SlotIndex(s: seq<Bid>, keys: seq<string>): map<string, seq<Bid>>
    requires |keys| == |s|
  {
    if s == [] then map[]
    else
      var m := SlotIndex(s[..|s| - 1], keys[..|s| - 1]);
      var k := keys[|s| - 1];
      File(m, k, s[|s| - 1])
  }

  /** Each index holds under a key exactly the bids with that key, in insertion order,
      and holds a key only when some bid has it. */
  lemma {:induction false} HasherIndexLookup(s: seq<Bid>, k: int)
    ensures Allocation.At(HasherIndex(s), k) == ByHasher(s, k)
    ensures k in HasherIndex(s) <==> ByHasher(s, k) != []
  {
    if s != [] { HasherIndexLookup(s[..|s| - 1], k); }
  }

  lemma {:induction false} TrailIndexLookup(s: seq<Bid>, k: string)
    ensures Allocation.At(TrailIndex(s), k) == ByTrail(s, k)
    ensures k in TrailIndex(s) <==> ByTrail(s, k) != []
  {
    if s != [] { TrailIndexLookup(s[..|s| - 1], k); }
  }

  lemma {:induction false} SlotIndexLookup(s: seq<Bid>, keys: seq<string>, k: string)
    requires |keys| == |s|
    ensures Allocation.At(SlotIndex(s, keys), k) == BySlot(s, keys, k)
    ensures k in SlotIndex(s, keys) <==> BySlot(s, keys, k) != []
  {
    if s != [] { SlotIndexLookup(s[..|s| - 1], keys[..|s| - 1], k); }
  }

  /** A slot id is filed in the index exactly when some bid was filed under it. */
  lemma {:induction false} SlotIndexKeys(s: seq<Bid>, keys: seq<string>, k: string)
    requires |keys| == |s|
    ensures k in SlotIndex(s, keys) <==> k in keys
  {
    if s != [] {
      SlotIndexKeys(s[..|s| - 1], keys[..|s| - 1], k);
      assert keys == keys[..|s| - 1] + [keys[|s| - 1]];
    }
  }

  lemma {:induction false} SumValuesAppend(s: seq<Bid>, t: seq<Bid>)
    ensures SumValues(s + t) == SumValues(s) + SumValues(t)
    decreases |t|
  {
    if t != [] {
      var u := t[..|t| - 1];
      assert (s + t)[..|s + t| - 1] == s + u;
      assert (s + t)[|s + t| - 1] == t[|t| - 1];
      SumValuesAppend(s, u);
      assert SumValues(s + t) == SumValues(s + u) + t[|t| - 1].value;
      assert SumValues(t) == SumValues(u) + t[|t| - 1].value;
    } else {
      assert s + t == s;
    }
  }

  lemma {:induction false} SumValuesRemove(t: seq<Bid>, k: int)
    requires 0 <= k < |t|
    ensures SumValues(t) == SumValues(t[..k] + t[k + 1..]) + t[k].value
  {
    var before, after := t[..k], t[k + 1..];
    var upTo := before + [t[k]];
    assert t == upTo + after;
    SumValuesAppend(upTo, after);
    assert upTo[..|upTo| - 1] == before;
    assert SumValues(upTo) == SumValues(before) + t[k].value;
    SumValuesAppend(before, after);
  }

  lemma {:induction false} MultisetRemove(s: seq<Bid>, t: seq<Bid>, k: int)
    requires multiset(s) == multiset(t) && s != [] && 0 <= k < |t| && t[k] == s[|s| - 1]
    ensures multiset(s[..|s| - 1]) == multiset(t[..k] + t[k + 1..])
  {
    var x := s[|s| - 1];
    assert t == t[..k] + [x] + t[k + 1..];
    assert s == s[..|s| - 1] + [x];
    calc {
      multiset(s[..|s| - 1]);
      multiset(s) - multiset{x};
      multiset(t) - multiset{x};
      multiset(t[..k] + t[k + 1..]);
    }
  }

  /** Reordering bids does not change their total: sorting keeps `value`. */
  lemma {:induction false} SumValuesPermutation(s: seq<Bid>, t: seq<Bid>)
    requires multiset(s) == multiset(t)
    ensures SumValues(s) == SumValues(t)
    decreases |s|
  {
    if s != [] {
      var x := s[|s| - 1];
      assert x in multiset(t);
      var k :| 0 <= k < |t| && t[k] == x;
      MultisetRemove(s, t, k);
      SumValuesPermutation(s[..|s| - 1], t[..k] + t[k + 1..]);
      SumValuesRemove(t, k);
    } else {
      assert |t| == |multiset(t)|;
    }
  }

  /** Minimum and maximum bid value of a non-empty sequence. */
  function MinValue(s: seq<Bid>): (m: int)
    requires s != []
    ensures exists i :: 0 <= i < |s| && s[i].value == m
    ensures forall i :: 0 <= i < |s| ==> m <= s[i].value
  {
    if |s| == 1 then s[0].value
    else
      var m := MinValue(s[1..]);
      assert forall i :: 1 <= i < |s| ==> s[i] == s[1..][i - 1];
      if s[0].value < m then s[0].value else m
  }

  function MaxValue(s: seq<Bid>): (m: int)
    requires s != []
    ensures exists i :: 0 <= i < |s| && s[i].value == m
    ensures forall i :: 0 <= i < |s| ==> s[i].value <= m
  {
    if |s| == 1 then s[0].value
    else
      var m := MaxValue(s[1..]);
      assert forall i :: 1 <= i < |s| ==> s[i] == s[1..][i - 1];
      if s[0].value > m then s[0].value else m
  }

  /** The trails of `s` in order, one per trail id: `Trails.add` guarded by `getById`. */
  function UniqueTrails(s: seq<Bid>): (r: seq<Trail>)
    ensures |r| <= |s|
    ensures (r == []) == (s == [])
  {
    if s == [] then []
    else
      var r := UniqueTrails(s[..|s| - 1]);
      if HasTrailId(r, s[|s| - 1].trail.id) then r else r + [s[|s| - 1].trail]
  }

  /** One more bid: its trail is appended unless a trail with its id is already there. */
  lemma {:induction false} UniqueTrailsStep(s: seq<Bid>, i: int)
    requires 0 <= i < |s|
    ensures UniqueTrails(s[..i + 1]) == if HasTrailId(UniqueTrails(s[..i]), s[i].trail.id)
                                        then UniqueTrails(s[..i]) else UniqueTrails(s[..i]) + [s[i].trail]
  {
    assert s[..i + 1][..i] == s[..i];
  }

  predicate HasTrailId(ts: seq<Trail>, id: string) {
    exists i :: 0 <= i < |ts| && ts[i].id == id
  }

  predicate HasHasherId(hs: seq<Hasher>, id: int) {
    exists i :: 0 <= i < |hs| && hs[i].id == id
  }

  /** The hashers of `hs` appended to `acc` with `Hashers.addUnique`: a hasher whose id is
      already present is skipped. */
  function AddUniqueHashers(acc: seq<Hasher>, hs: seq<Hasher>): seq<Hasher> {
    if hs == [] then acc
    else
      var r := AddUniqueHashers(acc, hs[..|hs| - 1]);
      if HasHasherId(r, hs[|hs| - 1].id) then r else r + [hs[|hs| - 1]]
  }

  /** The hashers who submitted the bids `s`, in order. */
  function HashersOf(s: seq<Bid>): (r: seq<Hasher>)
    ensures |r| == |s| && forall i :: 0 <= i < |s| ==> r[i] == s[i].hasher
  {
    if s == [] then [] else HashersOf(s[..|s| - 1]) + [s[|s| - 1].hasher]
  }

  /** Every bid's trail is linked to a time slot, as `add` needs. */
  ghost predicate Linked(s: seq<Bid>)
    reads set b | b in s :: b.trail
  {
    forall b :: b in s ==> b.trail.timeSlot != null
  }

  /** The time-slot ids `add` files the bids `s` under. */
  ghost function SlotIds(s: seq<Bid>): (r: seq<string>)
    requires Linked(s)
    reads set b | b in s :: b.trail
    ensures |r| == |s| && forall i :: 0 <= i < |s| ==> r[i] == s[i].trail.timeSlot.id
  {
    if s == [] then []
    else
      assert s[|s| - 1] in s;
      SlotIds(s[..|s| - 1]) + [s[|s| - 1].trail.timeSlot.id]
  }

  /** The filters keep only bids of `s` with the key asked for. */
  lemma {:induction false} FiltersWithin(s: seq<Bid>, keys: seq<string>, h: int, t: string, k: string)
    requires |keys| == |s|
    ensures forall b :: b in ByHasher(s, h) ==> b in s && b.hasher.id == h
    ensures forall b :: b in ByTrail(s, t) ==> b in s && Strip(b.trail.id) == t
    ensures forall b :: b in BySlot(s, keys, k) ==> b in s
  {
    if s != [] {
      var n := |s| - 1;
      FiltersWithin(s[..n], keys[..n], h, t, k);
      assert forall b :: b in s[..n] ==> b in s;
    }
  }

  /** Growing a prefix by one element, and the whole prefix. */
  lemma {:induction false} PrefixStep<T>(s: seq<T>, i: int)
    requires 0 <= i < |s|
    ensures s[..i + 1] == s[..i] + [s[i]] && s[..i + 1][..i] == s[..i]
  {
  }

  /** Appending the next element of `s` to `a + s[..i]` gives `a + s[..i + 1]`. */
  lemma {:induction false} Extended<T>(a: seq<T>, s: seq<T>, i: int)
    requires 0 <= i < |s|
    ensures a + s[..i] + [s[i]] == a + s[..i + 1]
  {
    assert s[..i + 1] == s[..i] + [s[i]];
  }

  lemma {:induction false} PrefixWhole<T>(s: seq<T>)
    ensures s[..|s|] == s
  {
  }

  // ---- the award rule on plain values ----

  /** A bid as the award rule reads it when the bid is tried. */
  ghost function ClaimOf(b: Bid): Allocation.Claim<Bid, Trail, Hasher>
    requires b.trail.timeSlot != null
    reads b.trail
  {
    Allocation.Claim(b, b.trail, b.hasher, b.trail.timeSlot.id, b.trail.capacity, b.value)
  }

  ghost function Claims(s: seq<Bid>): (r: seq<Allocation.Claim<Bid, Trail, Hasher>>)
    requires Linked(s)
    reads set b | b in s :: b.trail
    ensures |r| == |s| && forall i :: 0 <= i < |s| ==> r[i] == ClaimOf(s[i])
  {
    if s == [] then []
    else
      assert s[|s| - 1] in s;
      Claims(s[..|s| - 1]) + [ClaimOf(s[|s| - 1])]
  }

  /** The successful bids of the trails `ts` and hashers `hs`, and the slot ids the
      hashers' wins were filed under. */
  ghost function LedgerOf(ts: set<Trail>, hs: set<Hasher>): Allocation.Ledger<Bid, Trail, Hasher>
    reads set t | t in ts :: t.successfulBids
    reads set h | h in hs :: h.successfulBids
  {
    Allocation.Ledger(
      map t | t in ts :: t.successfulBids.list,
      map h | h in hs :: h.successfulBids.list,
      map h | h in hs :: h.successfulBids.slotKeys)
  }

  /** The sort key of `sortEquitably` (bid.py:412-418): higher value first, then fewer
      wins and fewer bids of the hasher, the hasher's rank, fewer bids on the trail, and
      the trail id. */
  function EquitableKey(b: Bid): Key
    reads b.hasher, b.hasher.successfulBids, b.hasher.bids, b.trail.bids
  {
    [Num(-b.value), Num(|b.hasher.successfulBids.list|), Num(|b.hasher.bids.list|),
     Num(b.hasher.rank), Num(|b.trail.bids.list|), Txt(b.trail.id)]
  }

  function EquitableKeys(s: seq<Bid>): (r: seq<Key>)
    reads set b | b in s :: b.hasher
    reads set b | b in s :: b.hasher.successfulBids
    reads set b | b in s :: b.hasher.bids
    reads set b | b in s :: b.trail.bids
    ensures |r| == |s| && forall i :: 0 <= i < |s| ==> r[i] == EquitableKey(s[i])
  {
    if s == [] then []
    else
      assert s[|s| - 1] in s;
      EquitableKeys(s[..|s| - 1]) + [EquitableKey(s[|s| - 1])]
  }

  /** `EquitableKey` on values: `wins` and `hb` hold each hasher's successful and submitted
      bids, `tb` each trail's submitted bids, and `rank` is the hasher's rank when the key
      is taken. */
  function SlotKey(b: Bid, wins: map<Hasher, seq<Bid>>, hb: map<Hasher, seq<Bid>>,
                   tb: map<Trail, seq<Bid>>, rank: int): Key
  {
    [Num(-b.value), Num(|Allocation.At(wins, b.hasher)|), Num(|Allocation.At(hb, b.hasher)|),
     Num(rank), Num(|Allocation.At(tb, b.trail)|), Txt(b.trail.id)]
  }

  /** `SlotKey` for every bid of `s`, bid `i` with rank `ranks[i]`. */
  function SlotKeys(s: seq<Bid>, wins: map<Hasher, seq<Bid>>, hb: map<Hasher, seq<Bid>>,
                    tb: map<Trail, seq<Bid>>, ranks: seq<int>): (r: seq<Key>)
    requires |ranks| == |s|
  {
    seq(|s|, i requires 0 <= i < |s| => SlotKey(s[i], wins, hb, tb, ranks[i]))
  }

  /** The ranks of the hashers of the bids `s`, bid by bid. */
  function Ranks(s: seq<Bid>): (r: seq<int>)
    reads set b | b in s :: b.hasher
    ensures |r| == |s| && forall i :: 0 <= i < |s| ==> r[i] == s[i].hasher.rank
  {
    if s == [] then []
    else
      assert s[|s| - 1] in s;
      Ranks(s[..|s| - 1]) + [s[|s| - 1].hasher.rank]
  }

  /** The first position of `x` in `s`, or `|s|` when it is absent. */
  function Position<T(==)>(s: seq<T>, x: T): (r: nat)
    ensures r <= |s| && (r < |s| <==> x in s)
    ensures r < |s| ==> s[r] == x && x !in s[..r]
  {
    if s == [] then 0
    else if s[0] == x then 0
    else
      assert s == [s[0]] + s[1..];
      1 + Position(s[1..], x)
  }

  /** The rank `sortByRandom` gives hasher `h` when the shuffle left the hashers in the
      order `drawn`: its sequence squared times its 1-based place (hasher.py:426-430). */
  function DrawnRank(h: Hasher, drawn: seq<Hasher>): int {
    h.sequence * h.sequence * (Position(drawn, h) + 1)
  }

  /** `tried` is the bids `all` in the equitable order: sorted by their `SlotKey`s over the
      hashers' wins `wins`, the submissions `hb` and `tb`, and ranks `ranks` that are the
      drawn ones for every hasher the draw placed in `drawn`. */
  ghost predicate EquitablyOrdered(tried: seq<Bid>, all: seq<Bid>, wins: map<Hasher, seq<Bid>>, hb: map<Hasher, seq<Bid>>,
                                   tb: map<Trail, seq<Bid>>, drawn: seq<Hasher>, ranks: seq<int>) {
    && |ranks| == |all|
    && (forall i :: 0 <= i < |all| && all[i].hasher in drawn ==> ranks[i] == DrawnRank(all[i].hasher, drawn))
    && tried == SortBy(all, SlotKeys(all, wins, hb, tb, ranks))
  }

  /** Once the hashers `drawn` are numbered, each one's rank is its `DrawnRank`. */
  lemma {:induction false} RankDrawn(drawn: seq<Hasher>, h: Hasher)
    requires Numbered(drawn) && h in drawn
    ensures h.rank == DrawnRank(h, drawn)
  {
    assert drawn[Position(drawn, h)] == h;
  }

  /** The keys `keys` with the rank field, the fourth of six, replaced by `ranks`. */
  function Reranked(keys: seq<Key>, ranks: seq<int>): seq<Key>
    requires |ranks| == |keys| && forall i :: 0 <= i < |keys| ==> |keys[i]| == 6
  {
    seq(|keys|, i requires 0 <= i < |keys| => keys[i][3 := Num(ranks[i])])
  }

  /** Re-ranking value keys is keying with the new ranks. */
  lemma {:induction false} RerankedSlotKeys(s: seq<Bid>, wins: map<Hasher, seq<Bid>>, hb: map<Hasher, seq<Bid>>,
                                            tb: map<Trail, seq<Bid>>, r0: seq<int>, r1: seq<int>)
    requires |r0| == |s| && |r1| == |s|
    ensures Reranked(SlotKeys(s, wins, hb, tb, r0), r1) == SlotKeys(s, wins, hb, tb, r1)
  {
    var k0 := SlotKeys(s, wins, hb, tb, r0);
    forall i | 0 <= i < |s| ensures Reranked(k0, r1)[i] == SlotKeys(s, wins, hb, tb, r1)[i] {
      assert k0[i] == SlotKey(s[i], wins, hb, tb, r0[i]);
    }
  }

  /** When only the hashers' ranks may have changed, the equitable keys change in their
      rank field alone. */
  twostate lemma {:induction false} KeysReranked(s: seq<Bid>)
    requires forall b :: b in s ==> unchanged(b.hasher.bids, b.hasher.successfulBids, b.trail.bids)
    ensures EquitableKeys(s) == Reranked(old(EquitableKeys(s)), Ranks(s))
  {
    forall i | 0 <= i < |s| ensures EquitableKeys(s)[i] == Reranked(old(EquitableKeys(s)), Ranks(s))[i] {
      assert s[i] in s;
      KeyReranked(s[i]);
    }
  }

  twostate lemma {:induction false} KeyReranked(b: Bid)
    requires unchanged(b.hasher.bids, b.hasher.successfulBids, b.trail.bids)
    ensures EquitableKey(b) == old(EquitableKey(b))[3 := Num(b.hasher.rank)]
  {
  }

  /** Every bidder who was drawn has the rank the draw gives. */
  lemma {:induction false} DrawnRanks(s: seq<Bid>, drawn: seq<Hasher>)
    requires Numbered(drawn)
    ensures forall i :: 0 <= i < |s| && s[i].hasher in drawn ==> Ranks(s)[i] == DrawnRank(s[i].hasher, drawn)
  {
    forall i | 0 <= i < |s| && s[i].hasher in drawn ensures Ranks(s)[i] == DrawnRank(s[i].hasher, drawn) {
      RankDrawn(drawn, s[i].hasher);
    }
  }

  /** When neither the hashers nor the collections a key reads have changed, neither have
      the keys nor the ranks. */
  twostate lemma {:induction false} KeysKept(s: seq<Bid>)
    requires forall b :: b in s ==> unchanged(b.hasher, b.hasher.bids, b.hasher.successfulBids, b.trail.bids)
    ensures EquitableKeys(s) == old(EquitableKeys(s)) && Ranks(s) == old(Ranks(s))
  {
    forall i | 0 <= i < |s| ensures EquitableKeys(s)[i] == old(EquitableKeys(s))[i] && Ranks(s)[i] == old(Ranks(s))[i] {
      assert s[i] in s;
    }
  }

  /** Bids keyed at a state: the equitable keys of `s` are their `SlotKey`s over the
      ledger, the submissions and the ranks of that state. */
  lemma {:induction false} KeysOnValues(s: seq<Bid>, ts: set<Trail>, hs: set<Hasher>)
    requires forall b :: b in s ==> b.trail in ts && b.hasher in hs
    ensures EquitableKeys(s) == SlotKeys(s, LedgerOf(ts, hs).hasherWins, HasherSubmissions(hs), TrailSubmissions(ts), Ranks(s))
  {
    var l := LedgerOf(ts, hs).hasherWins;
    var hb, tb := HasherSubmissions(hs), TrailSubmissions(ts);
    forall i | 0 <= i < |s| ensures EquitableKeys(s)[i] == SlotKeys(s, l, hb, tb, Ranks(s))[i] {
      assert s[i] in s;
    }
  }

  /** Sorting by keys that begin with `-value` leaves the values in descending order. */
  lemma {:induction false} SortedByValue(items: seq<Bid>, keys: seq<Key>)
    requires |keys| == |items|
    requires forall j :: 0 <= j < |items| ==> |keys[j]| > 0 && keys[j][0] == Num(-items[j].value)
    ensures forall i, j :: 0 <= i < j < |SortBy(items, keys)| ==> SortBy(items, keys)[j].value <= SortBy(items, keys)[i].value
  {
    SortByLeadingNumbers(items, keys, (b: Bid) => -b.value);
  }

  // ---- the classes ----

  /** A bid: a hasher offers `value` for a place on `trail` (bid.py:24-31). */
  class Bid {
    const hasher: Hasher
    const trail: Trail
    const value: int

    constructor(hasher: Hasher, trail: Trail, value: int)
      ensures this.hasher == hasher && this.trail == trail && this.value == value
    {
      this.hasher := hasher;
      this.trail := trail;
      this.value := value;
    }

    /** The time slot of the bid's trail (bid.py:42-47). */
    function TimeSlot(): TimeSlot?
      reads trail
    {
      trail.timeSlot
    }

    /** Award this bid if its trail is below capacity and its hasher has no win in this
        time slot yet; the bid then goes to both successful collections (bid.py:97-110). */
    method RunBid(ghost ts: set<Trail>, ghost hs: set<Hasher>) returns (won: bool)
      requires trail in ts && hasher in hs && trail.timeSlot != null
      requires forall t :: t in ts ==> t.Valid()
      requires forall h :: h in hs ==> h.Valid()
      requires DistinctWins(ts, hs)
      modifies trail.successfulBids, hasher.successfulBids
      ensures won == (old(|trail.successfulBids.list|) < trail.capacity
                      && !old(hasher.IsAttendingTimeSlot(trail.timeSlot.id)))
      ensures won ==> (
        && trail.successfulBids.list == old(trail.successfulBids.list) + [this]
        && trail.successfulBids.inserted == old(trail.successfulBids.inserted) + [this]
        && trail.successfulBids.slotKeys == old(trail.successfulBids.slotKeys) + [trail.timeSlot.id]
        && hasher.successfulBids.list == old(hasher.successfulBids.list) + [this]
        && hasher.successfulBids.slotKeys == old(hasher.successfulBids.slotKeys) + [trail.timeSlot.id]
        && hasher.successfulBids.inserted == old(hasher.successfulBids.inserted) + [this])
      ensures !won ==> unchanged(trail.successfulBids, hasher.successfulBids)
      ensures forall t :: t in ts ==> t.Valid() && unchanged(t)
      ensures forall t :: t in ts && t != trail ==> unchanged(t.successfulBids)
      ensures forall h :: h in hs ==> h.Valid()
      ensures forall h :: h in hs && h != hasher ==> unchanged(h.successfulBids)
      ensures LedgerOf(ts, hs) == Allocation.Apply(old(ClaimOf(this)), old(LedgerOf(ts, hs)))
    {
      ghost var before := LedgerOf(ts, hs);
      AttendingIffFiled(hasher, trail.timeSlot.id);
      assert before.trailWins[trail] == trail.successfulBids.list;
      assert before.hasherSlots[hasher] == hasher.successfulBids.slotKeys;
      if !trail.IsAtCapacity() && !hasher.IsAttendingTimeSlot(trail.timeSlot.id) {
        assert Allocation.Grants(ClaimOf(this), before);
        Award(ts, hs);
        won := true;
      } else {
        assert !Allocation.Grants(ClaimOf(this), before);
        won := false;
      }
    }

    /** The winning branch of `RunBid`: file this bid with its trail and its hasher. */
    method Award(ghost ts: set<Trail>, ghost hs: set<Hasher>)
      requires trail in ts && hasher in hs && trail.timeSlot != null
      requires forall t :: t in ts ==> t.Valid()
      requires forall h :: h in hs ==> h.Valid()
      requires DistinctWins(ts, hs)
      modifies trail.successfulBids, hasher.successfulBids
      ensures trail.successfulBids.list == old(trail.successfulBids.list) + [this]
      ensures trail.successfulBids.inserted == old(trail.successfulBids.inserted) + [this]
      ensures trail.successfulBids.slotKeys == old(trail.successfulBids.slotKeys) + [trail.timeSlot.id]
      ensures hasher.successfulBids.list == old(hasher.successfulBids.list) + [this]
      ensures hasher.successfulBids.slotKeys == old(hasher.successfulBids.slotKeys) + [trail.timeSlot.id]
      ensures hasher.successfulBids.inserted == old(hasher.successfulBids.inserted) + [this]
      ensures forall t :: t in ts ==> t.Valid() && unchanged(t)
      ensures forall t :: t in ts && t != trail ==> unchanged(t.successfulBids)
      ensures forall h :: h in hs ==> h.Valid()
      ensures forall h :: h in hs && h != hasher ==> unchanged(h.successfulBids)
      ensures LedgerOf(ts, hs) == Allocation.FileWithHasher(
                Allocation.FileWithTrail(old(LedgerOf(ts, hs)), trail, this), hasher, this, trail.timeSlot.id)
    {
      RecordTrailWin(ts, hs);
      RecordHasherWin(ts, hs);
    }

    /** `FileWithTrail`, read as a change of the ledger. */
    method RecordTrailWin(ghost ts: set<Trail>, ghost hs: set<Hasher>)
      requires trail in ts && trail.timeSlot != null
      requires forall t :: t in ts ==> t.Valid()
      requires forall h :: h in hs ==> h.Valid()
      requires DistinctWins(ts, hs)
      modifies trail.successfulBids
      ensures trail.successfulBids.list == old(trail.successfulBids.list) + [this]
      ensures trail.successfulBids.inserted == old(trail.successfulBids.inserted) + [this]
      ensures trail.successfulBids.slotKeys == old(trail.successfulBids.slotKeys) + [trail.timeSlot.id]
      ensures forall t :: t in ts ==> t.Valid() && unchanged(t)
      ensures forall t :: t in ts && t != trail ==> unchanged(t.successfulBids)
      ensures forall h :: h in hs ==> h.Valid() && unchanged(h.successfulBids)
      ensures LedgerOf(ts, hs) == Allocation.FileWithTrail(old(LedgerOf(ts, hs)), trail, this)
    {
      ghost var before := LedgerOf(ts, hs);
      FileWithTrail(ts, hs);
      LedgerAfterTrailWin(ts, hs, before, trail, this);
    }

    /** `FileWithHasher`, read as a change of the ledger. */
    method RecordHasherWin(ghost ts: set<Trail>, ghost hs: set<Hasher>)
      requires hasher in hs && trail.timeSlot != null
      requires forall t :: t in ts ==> t.Valid()
      requires forall h :: h in hs ==> h.Valid()
      requires DistinctWins(ts, hs)
      modifies hasher.successfulBids
      ensures hasher.successfulBids.list == old(hasher.successfulBids.list) + [this]
      ensures hasher.successfulBids.slotKeys == old(hasher.successfulBids.slotKeys) + [trail.timeSlot.id]
      ensures hasher.successfulBids.inserted == old(hasher.successfulBids.inserted) + [this]
      ensures forall t :: t in ts ==> t.Valid() && unchanged(t) && unchanged(t.successfulBids)
      ensures forall h :: h in hs ==> h.Valid()
      ensures forall h :: h in hs && h != hasher ==> unchanged(h.successfulBids)
      ensures unchanged(trail)
      ensures LedgerOf(ts, hs) == Allocation.FileWithHasher(old(LedgerOf(ts, hs)), hasher, this, trail.timeSlot.id)
    {
      ghost var before := LedgerOf(ts, hs);
      FileWithHasher(ts, hs);
      LedgerAfterHasherWin(ts, hs, before, hasher, this, trail.timeSlot.id);
    }

    /** `trail.addSuccessfulBid(self)`; no other trail's or any hasher's wins change. */
    method FileWithTrail(ghost ts: set<Trail>, ghost hs: set<Hasher>)
      requires trail in ts && trail.timeSlot != null
      requires forall t :: t in ts ==> t.Valid()
      requires forall h :: h in hs ==> h.Valid()
      requires DistinctWins(ts, hs)
      modifies trail.successfulBids
      ensures trail.successfulBids.list == old(trail.successfulBids.list) + [this]
      ensures trail.successfulBids.inserted == old(trail.successfulBids.inserted) + [this]
      ensures trail.successfulBids.slotKeys == old(trail.successfulBids.slotKeys) + [trail.timeSlot.id]
      ensures forall t :: t in ts ==> t.Valid() && unchanged(t)
      ensures forall t :: t in ts && t != trail ==> unchanged(t.successfulBids)
      ensures forall h :: h in hs ==> h.Valid() && unchanged(h.successfulBids)
    {
      trail.AddSuccessfulBid(this);
      forall t | t in ts ensures t.Valid() && (t != trail ==> unchanged(t.successfulBids)) {
        assert t.bids != trail.successfulBids;
        if t != trail {
          assert t.successfulBids != trail.successfulBids;
        }
      }
      forall h | h in hs ensures h.Valid() && unchanged(h.successfulBids) {
        assert h.bids != trail.successfulBids && h.successfulBids != trail.successfulBids;
      }
    }

    /** `hasher.addSuccessfulBid(self)`; no other hasher's or any trail's wins change. */
    method FileWithHasher(ghost ts: set<Trail>, ghost hs: set<Hasher>)
      requires hasher in hs && trail.timeSlot != null
      requires forall t :: t in ts ==> t.Valid()
      requires forall h :: h in hs ==> h.Valid()
      requires DistinctWins(ts, hs)
      modifies hasher.successfulBids
      ensures hasher.successfulBids.list == old(hasher.successfulBids.list) + [this]
      ensures hasher.successfulBids.slotKeys == old(hasher.successfulBids.slotKeys) + [trail.timeSlot.id]
      ensures hasher.successfulBids.inserted == old(hasher.successfulBids.inserted) + [this]
      ensures forall t :: t in ts ==> t.Valid() && unchanged(t) && unchanged(t.successfulBids)
      ensures forall h :: h in hs ==> h.Valid()
      ensures forall h :: h in hs && h != hasher ==> unchanged(h.successfulBids)
      ensures unchanged(trail)
    {
      hasher.AddSuccessfulBid(this);
      forall t | t in ts ensures t.Valid() && unchanged(t.successfulBids) {
        assert t.bids != hasher.successfulBids && t.successfulBids != hasher.successfulBids;
      }
      forall h | h in hs ensures h.Valid() && (h != hasher ==> unchanged(h.successfulBids)) {
        assert h.bids != hasher.successfulBids;
        if h != hasher {
          assert h.successfulBids != hasher.successfulBids;
        }
      }
    }
  }

  /** A collection of bids: a list in processing order plus three indexes by hasher id,
      trail id and time-slot id, each holding its bids in insertion order (bid.py:122-132).
      The list may be re-sorted; the indexes keep insertion order, which the ghost
      `inserted` records together with the time-slot id each bid was filed under. */
  class Bids {
    var list: seq<Bid>
    var hasherBids: map<int, seq<Bid>>
    var trailBids: map<string, seq<Bid>>
    var timeSlotBids: map<string, seq<Bid>>
    ghost var inserted: seq<Bid>
    ghost var slotKeys: seq<string>
    ghost const role: Role
    ghost const owner: Owner

    /** The indexes agree with the insertion history and the list holds the same bids. */
    ghost predicate Valid()
      reads this
    {
      && |slotKeys| == |inserted|
      && multiset(list) == multiset(inserted)
      && hasherBids == HasherIndex(inserted)
      && trailBids == TrailIndex(inserted)
      && timeSlotBids == SlotIndex(inserted, slotKeys)
    }

    constructor(ghost role: Role, ghost owner: Owner)
      ensures Valid() && list == [] && inserted == [] && slotKeys == []
      ensures hasherBids == map[] && trailBids == map[] && timeSlotBids == map[]
      ensures this.role == role && this.owner == owner
    {
      list := [];
      hasherBids := map[];
      trailBids := map[];
      timeSlotBids := map[];
      inserted := [];
      slotKeys := [];
      this.role := role;
      this.owner := owner;
    }

    /** `len(self.list)` (bid.py:197-200). */
    function Count(): nat
      reads this
    {
      |list|
    }

    /** The total of the bid values, 0 when empty (bid.py:204-207). */
    function Value(): int
      reads this
    {
      SumValues(list)
    }

    /** Lowest and highest bid value, or `(None, None)` when empty (bid.py:184-193). */
    function BookendValues(): (r: (Option<int>, Option<int>))
      reads this
      ensures list == [] <==> r.0 == None
      ensures list == [] <==> r.1 == None
      ensures r.0.Some? ==> exists i :: 0 <= i < |list| && list[i].value == r.0.value
      ensures r.0.Some? ==> forall i :: 0 <= i < |list| ==> r.0.value <= list[i].value
      ensures r.1.Some? ==> exists i :: 0 <= i < |list| && list[i].value == r.1.value
      ensures r.1.Some? ==> forall i :: 0 <= i < |list| ==> list[i].value <= r.1.value
    {
      if list == [] then (None, None) else (Some(MinValue(list)), Some(MaxValue(list)))
    }

    /** Sum of the values filed under time-slot id `id`, or 0 (bid.py:423-429). */
    function ValueByTimeSlotId(id: string): int
      reads this
    {
      if id in timeSlotBids then SumValues(timeSlotBids[id]) else 0
    }

    /** `value` is the total of every bid added, however the list has since been sorted,
        and `valueByTimeSlotId` the total of the bids filed under that slot id, 0 when
        none was. */
    lemma ValueTotals(id: string)
      requires Valid()
      ensures Value() == SumValues(inserted)
      ensures ValueByTimeSlotId(id) == SumValues(BySlot(inserted, slotKeys, id))
      ensures id !in slotKeys ==> ValueByTimeSlotId(id) == 0
    {
      SumValuesPermutation(list, inserted);
      SlotIndexLookup(inserted, slotKeys, id);
      SlotIndexKeys(inserted, slotKeys, id);
    }

    /** The trails, one per id, of the bids filed under time-slot id `id`
        (bid.py:302-311) as a sequence. */
    function TrailsInSlot(id: string): seq<Trail>
      reads this
    {
      UniqueTrails(Allocation.At(timeSlotBids, id))
    }

    /** Append a bid and file it under its hasher id, stripped trail id and the id of its
        trail's time slot; there is no duplicate check (bid.py:211-230). */
    method Add(b: Bid)
      requires Valid() && b.trail.timeSlot != null
      modifies this
      ensures Valid()
      ensures list == old(list) + [b] && inserted == old(inserted) + [b]
      ensures slotKeys == old(slotKeys + [b.trail.timeSlot.id])
    {
      var timeSlotId := b.trail.timeSlot.id;
      assert (inserted + [b])[..|inserted|] == inserted;
      assert (slotKeys + [timeSlotId])[..|inserted|] == slotKeys;
      list := list + [b];
      var hasherId := b.hasher.id;
      hasherBids := File(hasherBids, hasherId, b);
      var trailId := Strip(b.trail.id);
      trailBids := File(trailBids, trailId, b);
      timeSlotBids := File(timeSlotBids, timeSlotId, b);
      inserted := inserted + [b];
      slotKeys := slotKeys + [timeSlotId];
    }

    /** Add every bid of `bs`, in order (bid.py:326-332). */
    method Merge(bs: seq<Bid>)
      requires Valid() && Linked(bs)
      modifies this
      ensures Valid()
      ensures list == old(list) + bs && inserted == old(inserted) + bs
      ensures slotKeys == old(slotKeys) + SlotIds(bs)
    {
      ghost var keys := SlotIds(bs);
      var i := 0;
      while i < |bs|
        invariant 0 <= i <= |bs|
        invariant Valid()
        invariant list == old(list) + bs[..i] && inserted == old(inserted) + bs[..i]
        invariant slotKeys == old(slotKeys) + keys[..i]
      {
        AddNext(bs, keys, i);
        Extended(old(list), bs, i);
        Extended(old(slotKeys), keys, i);
        i := i + 1;
      }
      PrefixWhole(bs);
      PrefixWhole(keys);
    }

    /** One turn of the loop of `merge`: the next bid is added. */
    method AddNext(bs: seq<Bid>, ghost keys: seq<string>, i: nat)
      requires Valid() && Linked(bs) && keys == SlotIds(bs) && i < |bs|
      modifies this
      ensures Valid()
      ensures list == old(list) + [bs[i]] && inserted == old(inserted) + [bs[i]]
      ensures slotKeys == old(slotKeys) + [keys[i]]
      ensures bs[..i + 1] == bs[..i] + [bs[i]] && keys[..i + 1] == keys[..i] + [keys[i]]
    {
      assert bs[i] in bs && keys[i] == bs[i].trail.timeSlot.id;
      Add(bs[i]);
      PrefixStep(bs, i);
      PrefixStep(keys, i);
    }

    /** A fresh collection with the same bids in the same order (bid.py:234-238). */
    method GetBids() returns (r: Bids)
      requires Linked(list)
      ensures fresh(r) && r.Valid() && r.role == Loose
      ensures r.list == list && r.inserted == list && r.slotKeys == SlotIds(list)
    {
      r := new Bids(Loose, Nobody);
      r.Merge(list);
    }

    /** A fresh collection of the bids filed under hasher id `id`, in insertion order;
        empty when the id is unknown (bid.py:242-249). */
    method GetBidsByHasherId(id: int) returns (r: Bids)
      requires Valid() && Linked(inserted)
      ensures fresh(r) && r.Valid() && r.role == Loose
      ensures r.list == ByHasher(inserted, id) && r.inserted == r.list
    {
      r := new Bids(Loose, Nobody);
      HasherIndexLookup(inserted, id);
      if id in hasherBids {
        FiltersWithin(inserted, slotKeys, id, "", "");
        r.Merge(hasherBids[id]);
      }
    }

    /** The same for time-slot id `id` (bid.py:253-261). */
    method GetBidsByTimeSlotId(id: string) returns (r: Bids)
      requires Valid() && Linked(inserted)
      ensures fresh(r) && r.Valid() && r.role == Loose
      ensures r.list == BySlot(inserted, slotKeys, id) && r.inserted == r.list
    {
      r := new Bids(Loose, Nobody);
      SlotIndexLookup(inserted, slotKeys, id);
      if id in timeSlotBids {
        FiltersWithin(inserted, slotKeys, 0, "", id);
        r.Merge(timeSlotBids[id]);
      }
    }

    /** The same for trail id `id`, added one by one (bid.py:265-274). */
    method GetBidsByTrailId(id: string) returns (r: Bids)
      requires Valid() && Linked(inserted)
      ensures fresh(r) && r.Valid() && r.role == Loose
      ensures r.list == ByTrail(inserted, id) && r.inserted == r.list
    {
      r := new Bids(Loose, Nobody);
      TrailIndexLookup(inserted, id);
      if id in trailBids {
        FiltersWithin(inserted, slotKeys, 0, id, "");
        var bs := trailBids[id];
        var i := 0;
        while i < |bs|
          invariant 0 <= i <= |bs|
          invariant r.Valid() && r.role == Loose
          invariant r.list == bs[..i] && r.inserted == bs[..i]
        {
          assert bs[i] in bs;
          r.Add(bs[i]);
          PrefixStep(bs, i);
          i := i + 1;
        }
        PrefixWhole(bs);
      }
    }

    /** A fresh trail collection holding, once per trail id, the trails of the bids filed
        under time-slot id `id` (bid.py:302-311). */
    method GetTrailsByTimeSlotId(id: string) returns (r: Trails)
      requires Valid() && Linked(inserted)
      ensures fresh(r) && r.Valid() && r.list == TrailsInSlot(id)
    {
      var bs := GetBidsByTimeSlotId(id);
      SlotIndexLookup(inserted, slotKeys, id);
      r := CollectTrails(bs.list);
    }

    /** The loop of `getTrailsByTimeSlotId` over the bids `l` filed under the id. */
    static method CollectTrails(l: seq<Bid>) returns (r: Trails)
      ensures fresh(r) && r.Valid() && r.list == UniqueTrails(l)
    {
      r := new Trails();
      var i := 0;
      while i < |l|
        invariant 0 <= i <= |l|
        invariant fresh(r) && r.Valid() && r.list == UniqueTrails(l[..i])
      {
        var b := l[i];
        UniqueTrailsStep(l, i);
        r.AddIfAbsent(b.trail);
        i := i + 1;
      }
      PrefixWhole(l);
    }

    /** A fresh hasher collection of the bids' hashers, once per hasher id, in order of
        first bid (bid.py:315-322). */
    method GetHashers() returns (r: Hashers)
      ensures fresh(r) && r.Valid() && r.list == AddUniqueHashers([], HashersOf(list))
    {
      r := new Hashers();
      var i := 0;
      while i < |list|
        invariant 0 <= i <= |list|
        invariant r.Valid() && r.list == AddUniqueHashers([], HashersOf(list[..i]))
      {
        PrefixStep(list, i);
        r.AddUnique(list[i].hasher);
        i := i + 1;
      }
      PrefixWhole(list);
    }

    /** Reorder the list by `EquitableKey`, computed once for every bid before the sort;
        the sort is stable and the indexes keep their order (bid.py:392-419). */
    method SortEquitably()
      requires Valid()
      modifies this
      ensures Valid()
      ensures inserted == old(inserted) && slotKeys == old(slotKeys)
      ensures hasherBids == old(hasherBids) && trailBids == old(trailBids) && timeSlotBids == old(timeSlotBids)
      ensures list == SortBy(old(list), old(EquitableKeys(list))) && multiset(list) == multiset(old(list))
    {
      var keys := EquitableKeys(list);
      SortByKeeps(list, keys);
      list := SortBy(list, keys);
    }

    /** Sort equitably, then try every bid once in that order (bid.py:368-374). `ts` and
        `hs` are the trails and hashers the bids refer to. Their successful bids end as the
        award rule run over the sorted list leaves them. */
    method RunBid(ghost ts: set<Trail>, ghost hs: set<Hasher>)
      requires Valid() && role == Loose
      requires forall b :: b in list ==> b.trail in ts && b.hasher in hs
      requires TrailsReady(ts)
      requires HashersReady(hs)
      requires DistinctWins(ts, hs)
      modifies this
      modifies set t | t in ts :: t.successfulBids
      modifies set h | h in hs :: h.successfulBids
      ensures Valid() && inserted == old(inserted) && slotKeys == old(slotKeys)
      ensures list == SortBy(old(list), old(EquitableKeys(list)))
      ensures TrailsReady(ts)
      ensures HashersReady(hs)
      ensures Linked(list) && multiset(list) == multiset(old(list))
      ensures LedgerOf(ts, hs) == Allocation.Run(Claims(list), old(LedgerOf(ts, hs)))
      ensures Allocation.ValuesDescend(Claims(list))
      ensures old(WithinLimits(ts, hs)) ==> WithinLimits(ts, hs)
      ensures old(Submitted(list, TrailSubmissions(ts), HasherSubmissions(hs))
                  && WinsSubmitted(LedgerOf(ts, hs), TrailSubmissions(ts), HasherSubmissions(hs)))
              ==> WinsSubmitted(LedgerOf(ts, hs), old(TrailSubmissions(ts)), old(HasherSubmissions(hs)))
    {
      ghost var before := list;
      ghost var keys := EquitableKeys(list);
      ghost var l0 := LedgerOf(ts, hs);
      ghost var within := Within(l0, ts, hs);
      ghost var tb, hb := TrailSubmissions(ts), HasherSubmissions(hs);
      ghost var submitted := Submitted(list, tb, hb) && WinsSubmitted(l0, tb, hb);
      SortAmong(ts, hs);
      SortedByValue(before, keys);
      MembersKept(before, list, ts, hs);
      TryInOrder(ts, hs);
      if within {
        RunStaysWithin(list, l0, ts, hs);
      }
      if submitted {
        SubmittedKept(before, list, tb, hb);
        RunWinsSubmitted(list, l0, tb, hb);
      }
    }

    /** `SortEquitably`, seen from the trails and hashers: a loose collection is none of
        theirs, so sorting it leaves their successful bids alone. */
    method SortAmong(ghost ts: set<Trail>, ghost hs: set<Hasher>)
      requires Valid() && role == Loose
      requires forall t :: t in ts ==> t.Valid() && t.timeSlot != null
      requires forall h :: h in hs ==> h.Valid()
      modifies this
      ensures Valid() && inserted == old(inserted) && slotKeys == old(slotKeys)
      ensures list == SortBy(old(list), old(EquitableKeys(list))) && multiset(list) == multiset(old(list))
      ensures forall t :: t in ts ==> t.Valid() && unchanged(t)
      ensures forall h :: h in hs ==> h.Valid()
      ensures LedgerOf(ts, hs) == old(LedgerOf(ts, hs))
    {
      SortEquitably();
      forall t | t in ts ensures unchanged(t.successfulBids) {
        assert t.successfulBids.role != role;
      }
      forall h | h in hs ensures unchanged(h.successfulBids) {
        assert h.successfulBids.role != role;
      }
    }

    /** The loop of `runBid`: every bid of the list is tried once, front to back
        (bid.py:373-374). */
    method TryInOrder(ghost ts: set<Trail>, ghost hs: set<Hasher>)
      requires role == Loose
      requires forall b :: b in list ==> b.trail in ts && b.hasher in hs
      requires forall t :: t in ts ==> t.Valid() && t.timeSlot != null
      requires forall h :: h in hs ==> h.Valid()
      requires DistinctWins(ts, hs)
      modifies set t | t in ts :: t.successfulBids
      modifies set h | h in hs :: h.successfulBids
      ensures unchanged(this)
      ensures forall t :: t in ts ==> t.Valid() && unchanged(t)
      ensures forall h :: h in hs ==> h.Valid()
      ensures Linked(list) && Claims(list) == old(Claims(list))
      ensures LedgerOf(ts, hs) == Allocation.Run(old(Claims(list)), old(LedgerOf(ts, hs)))
    {
      var bs := list;
      assert Linked(bs);
      ghost var cs := Claims(bs);
      ghost var l0 := LedgerOf(ts, hs);
      LooseIsApart(this, ts, hs);
      var i := 0;
      while i < |bs|
        invariant 0 <= i <= |bs| && list == bs
        invariant unchanged(this)
        invariant forall t :: t in ts ==> t.Valid() && unchanged(t)
        invariant forall h :: h in hs ==> h.Valid()
        invariant LedgerOf(ts, hs) == Allocation.Run(cs[..i], l0)
      {
        assert bs[i] in bs;
        TryAt(i, ts, hs, cs, l0);
        i := i + 1;
      }
      PrefixWhole(cs);
      forall k | 0 <= k < |bs| ensures Claims(bs)[k] == cs[k] {
        assert bs[k] in bs;
      }
    }

    /** One turn of that loop: try bid `k` against the ledger the bids before it left. */
    method TryAt(k: int, ghost ts: set<Trail>, ghost hs: set<Hasher>,
                 ghost cs: seq<Allocation.Claim<Bid, Trail, Hasher>>, ghost l0: Allocation.Ledger<Bid, Trail, Hasher>)
      requires role == Loose && 0 <= k < |list| && k < |cs|
      requires list[k].trail in ts && list[k].hasher in hs
      requires forall t :: t in ts ==> t.Valid() && t.timeSlot != null
      requires forall h :: h in hs ==> h.Valid()
      requires DistinctWins(ts, hs)
      requires cs[k] == ClaimOf(list[k])
      requires forall t :: t in ts ==> t.successfulBids != this
      requires forall h :: h in hs ==> h.successfulBids != this
      requires LedgerOf(ts, hs) == Allocation.Run(cs[..k], l0)
      modifies set t | t in ts :: t.successfulBids
      modifies set h | h in hs :: h.successfulBids
      ensures unchanged(this)
      ensures forall t :: t in ts ==> t.Valid() && unchanged(t)
      ensures forall h :: h in hs ==> h.Valid()
      ensures LedgerOf(ts, hs) == Allocation.Run(cs[..k + 1], l0)
    {
      var b := list[k];
      Allocation.RunSnoc(cs, l0, k);
      var _ := b.RunBid(ts, hs);
    }
  }

  /** A trail: it belongs to at most one time slot and takes up to `capacity` hashers
      (trail.py:22-39). */
  class Trail {
    const id: string
    const sequence: int
    const name: string
    const capacity: int
    const bids: Bids
    const successfulBids: Bids
    var timeSlot: TimeSlot?

    /** The trail owns its two collections, in their two roles. */
    ghost predicate Valid()
      reads bids, successfulBids
    {
      && bids.role == TrailBids && bids.Valid()
      && successfulBids.role == TrailWins && successfulBids.Valid()
      && Owned()
    }

    /** The two collections are tagged with this trail's id; the tags never change. */
    ghost predicate Owned()
    {
      bids.owner == TrailOwner(id) && successfulBids.owner == TrailOwner(id)
    }

    /** `Trail(id, sequence, name, capacity)`: the id and name stripped, no time slot,
        no bids (trail.py:31-39). */
    constructor(id: string, sequence: int, name: string, capacity: int)
      ensures Valid() && this.id == Strip(id) && this.name == Strip(name)
      ensures this.sequence == sequence && this.capacity == capacity && timeSlot == null
      ensures bids.list == [] && bids.inserted == [] && successfulBids.list == [] && successfulBids.inserted == []
      ensures fresh(bids) && fresh(successfulBids)
    {
      this.id := Strip(id);
      this.sequence := sequence;
      this.name := Strip(name);
      this.capacity := capacity;
      this.bids := new Bids(TrailBids, TrailOwner(Strip(id)));
      this.successfulBids := new Bids(TrailWins, TrailOwner(Strip(id)));
      this.timeSlot := null;
    }

    /** Number of submitted bids (trail.py:58-64). */
    function BidCount(): nat
      reads bids
    {
      |bids.list|
    }

    /** Total of the submitted bid values (trail.py:68-74). */
    function BidValue(): int
      reads bids
    {
      SumValues(bids.list)
    }

    /** Number of successful bids (trail.py:48-54). */
    function SuccessfulBidsCount(): nat
      reads successfulBids
    {
      |successfulBids.list|
    }

    /** The trail is full (trail.py:131-137). */
    predicate IsAtCapacity()
      reads successfulBids
    {
      |successfulBids.list| >= capacity
    }

    /** The `timeSlot` setter (trail.py:84-104): a slot is assigned only while none is set,
        and clearing is always allowed; any other assignment, the same slot included,
        raises `DuplicateError` and keeps the slot. */
    method SetTimeSlot(ts: TimeSlot?) returns (o: Outcome)
      modifies this
      ensures old(timeSlot) == null || ts == null ==> o == Ok && timeSlot == ts
      ensures old(timeSlot) != null && ts != null ==> o == DuplicateError && timeSlot == old(timeSlot)
    {
      if timeSlot == null || ts == null {
        timeSlot := ts;
        o := Ok;
      } else {
        o := DuplicateError;
      }
    }

    /** A fresh copy of the submitted bids (trail.py:125-127). */
    method GetBids() returns (r: Bids)
      requires Linked(bids.list)
      ensures fresh(r) && r.Valid() && r.role == Loose
      ensures r.list == bids.list && r.inserted == bids.list
    {
      r := bids.GetBids();
    }

    /** The hashers of the submitted bids, once each, in order of first bid
        (trail.py:141-143). */
    method GetHashers() returns (r: Hashers)
      ensures fresh(r) && r.Valid() && r.list == AddUniqueHashers([], HashersOf(bids.list))
    {
      r := bids.GetHashers();
    }

    /** The per-trail `runBid` as written (trail.py:234-260). It sorts the submitted bids
        equitably and walks them; for the first bid, a trail below capacity calls
        `successfulBids.getByHasherId`, a method `Bids` does not have, so `AttributeError`
        is raised; a full trail breaks out of the loop instead. No bid is ever awarded. */
    method RunBid() returns (o: Outcome)
      requires Valid()
      modifies bids
      ensures Valid() && bids.inserted == old(bids.inserted) && bids.slotKeys == old(bids.slotKeys)
      ensures bids.list == SortBy(old(bids.list), old(EquitableKeys(bids.list)))
      ensures multiset(bids.list) == multiset(old(bids.list))
      ensures o == AttributeError <==> old(bids.list) != [] && |successfulBids.list| < capacity
      ensures o != AttributeError ==> o == Ok
    {
      bids.SortEquitably();
      var l := bids.list;
      var stop := false;
      o := Ok;
      // The capacity test after the lookup always holds once the lookup is skipped, so
      // the loop ends on its first bid either way.
      while |l| > 0 && !stop
        invariant o == Ok
        invariant stop ==> |successfulBids.list| >= capacity
        decreases if stop then 0 else 1
      {
        if |successfulBids.list| < capacity {
          o := AttributeError;
          return;
        }
        stop := true;
      }
    }

    /** File a submitted bid (trail.py:108-112). */
    method AddBid(b: Bid)
      requires Valid() && b.trail.timeSlot != null
      modifies bids
      ensures Valid()
      ensures bids.list == old(bids.list) + [b] && bids.inserted == old(bids.inserted) + [b]
      ensures bids.slotKeys == old(bids.slotKeys) + [b.trail.timeSlot.id]
    {
      bids.Add(b);
    }

    /** File a winning bid (trail.py:116-121). */
    method AddSuccessfulBid(b: Bid)
      requires Valid() && b.trail.timeSlot != null
      modifies successfulBids
      ensures Valid()
      ensures successfulBids.list == old(successfulBids.list) + [b]
      ensures successfulBids.inserted == old(successfulBids.inserted) + [b]
      ensures successfulBids.slotKeys == old(successfulBids.slotKeys) + [b.trail.timeSlot.id]
    {
      successfulBids.Add(b);
    }
  }

  /** A hasher: bids on trails, wins at most one per time slot (hasher.py:25-48). */
  class Hasher {
    const id: int
    const sequence: int
    const name: string
    const bids: Bids
    const successfulBids: Bids
    var order: int
    var rank: int

    ghost predicate Valid()
      reads bids, successfulBids
    {
      && bids.role == HasherBids && bids.Valid()
      && successfulBids.role == HasherWins && successfulBids.Valid()
      && Owned()
    }

    /** The two collections are tagged with this hasher's id; the tags never change. */
    ghost predicate Owned()
    {
      bids.owner == HasherOwner(id) && successfulBids.owner == HasherOwner(id)
    }

    /** `Hasher(id, sequence, name)`: order starts as the sequence and rank as the order
        (hasher.py:40-48). */
    constructor(id: int, sequence: int, name: string)
      ensures Valid() && this.id == id && this.sequence == sequence && this.name == Strip(name)
      ensures order == sequence && rank == sequence
      ensures bids.list == [] && bids.inserted == [] && successfulBids.list == [] && successfulBids.inserted == []
      ensures fresh(bids) && fresh(successfulBids)
    {
      this.id := id;
      this.sequence := sequence;
      this.name := Strip(name);
      this.bids := new Bids(HasherBids, HasherOwner(id));
      this.successfulBids := new Bids(HasherWins, HasherOwner(id));
      this.order := sequence;
      this.rank := sequence;
    }

    /** Number of bids submitted (hasher.py:57-62). */
    function BidCount(): nat
      reads bids
    {
      |bids.list|
    }

    /** Total of the submitted values (hasher.py:66-71). */
    function BidValue(): int
      reads bids
    {
      SumValues(bids.list)
    }

    /** Number of wins (hasher.py:75-80). */
    function SuccessfulBidCount(): nat
      reads successfulBids
    {
      |successfulBids.list|
    }

    /** The hasher already won a trail of time slot `id` (hasher.py:115-123). */
    predicate IsAttendingTimeSlot(id: string)
      reads successfulBids
    {
      |successfulBids.TrailsInSlot(id)| != 0
    }

    /** Submit a bid (hasher.py:84-102). The duplicate test is list membership, and `Bid`
        defines no equality, so only the very same object counts as a duplicate; the
        error branch names two variables that do not exist, so it raises `NameError`.
        `advisory` says whether the slot total went from within `allowance` to above it. */
    method AddBid(b: Bid, allowance: int) returns (o: Outcome, advisory: bool)
      requires Valid() && b.trail.timeSlot != null
      modifies bids
      ensures Valid()
      ensures o == NameError <==> b in old(bids.list)
      ensures o != NameError ==> o == Ok
      ensures o == NameError ==> unchanged(bids) && !advisory
      ensures o == Ok ==> bids.list == old(bids.list) + [b] && bids.inserted == old(bids.inserted) + [b]
      ensures o == Ok ==> bids.slotKeys == old(bids.slotKeys) + [b.trail.timeSlot.id]
      ensures o == Ok ==> (
        advisory == (old(bids.ValueByTimeSlotId(b.trail.timeSlot.id)) <= allowance
                     && old(bids.ValueByTimeSlotId(b.trail.timeSlot.id)) + b.value > allowance))
    {
      if b !in bids.list {
        var slot := b.trail.timeSlot.id;
        var oldBidValue := bids.ValueByTimeSlotId(slot);
        bids.Add(b);
        var newBidValue := bids.ValueByTimeSlotId(slot);
        SumValuesAppend(Allocation.At(old(bids.timeSlotBids), slot), [b]);
        assert SumValues([b]) == b.value by { assert [b][..0] == []; }
        advisory := oldBidValue <= allowance && newBidValue > allowance;
        o := Ok;
      } else {
        o := NameError;
        advisory := false;
      }
    }

    /** File a win (hasher.py:106-111). */
    method AddSuccessfulBid(b: Bid)
      requires Valid() && b.trail.timeSlot != null
      modifies successfulBids
      ensures Valid()
      ensures successfulBids.list == old(successfulBids.list) + [b]
      ensures successfulBids.inserted == old(successfulBids.inserted) + [b]
      ensures successfulBids.slotKeys == old(successfulBids.slotKeys) + [b.trail.timeSlot.id]
    {
      successfulBids.Add(b);
    }
  }

  /** A loose collection is none of the trails' or hashers' own. */
  lemma {:induction false} LooseIsApart(b: Bids, ts: set<Trail>, hs: set<Hasher>)
    requires b.role == Loose
    requires forall t :: t in ts ==> t.Valid()
    requires forall h :: h in hs ==> h.Valid()
    ensures forall t :: t in ts ==> t.successfulBids != b
    ensures forall h :: h in hs ==> h.successfulBids != b
  {
  }

  /** Reordering keeps every bid among its trail's and its hasher's submitted bids. */
  lemma {:induction false} SubmittedKept(s: seq<Bid>, r: seq<Bid>, tb: map<Trail, seq<Bid>>, hb: map<Hasher, seq<Bid>>)
    requires multiset(r) == multiset(s) && Submitted(s, tb, hb)
    ensures Submitted(r, tb, hb)
  {
    SameMembers(s, r);
  }

  /** Reordering keeps every bid's trail and hasher among `ts` and `hs`. */
  lemma {:induction false} MembersKept(s: seq<Bid>, r: seq<Bid>, ts: set<Trail>, hs: set<Hasher>)
    requires multiset(r) == multiset(s)
    requires forall b :: b in s ==> b.trail in ts && b.hasher in hs
    ensures forall b :: b in r ==> b.trail in ts && b.hasher in hs
  {
    forall b | b in r ensures b.trail in ts && b.hasher in hs {
      assert b in multiset(s);
    }
  }

  /** Every trail of `ts` is well formed and scheduled in a slot. */
  ghost predicate TrailsReady(ts: set<Trail>)
    reads ts, set t | t in ts :: t.bids, set t | t in ts :: t.successfulBids
  {
    forall t :: t in ts ==> t.Valid() && t.timeSlot != null
  }

  /** Every hasher of `hs` is well formed. */
  ghost predicate HashersReady(hs: set<Hasher>)
    reads set h | h in hs :: h.bids, set h | h in hs :: h.successfulBids
  {
    forall h :: h in hs ==> h.Valid()
  }

  /** Different trails, and different hashers, hold different collections of successful
      bids: each builds its own. */
  ghost predicate DistinctWins(ts: set<Trail>, hs: set<Hasher>) {
    && (forall t1, t2 :: t1 in ts && t2 in ts && t1 != t2 ==> t1.successfulBids != t2.successfulBids)
    && (forall h1, h2 :: h1 in hs && h2 in hs && h1 != h2 ==> h1.successfulBids != h2.successfulBids)
  }

  /** The ledger the successful bids form once `t` gained bid `b` over `before`. */
  lemma {:induction false} LedgerAfterTrailWin(ts: set<Trail>, hs: set<Hasher>, before: Allocation.Ledger<Bid, Trail, Hasher>, t: Trail, b: Bid)
    requires t in ts
    requires forall u :: u in before.trailWins <==> u in ts
    requires forall h :: h in before.hasherWins <==> h in hs
    requires forall h :: h in before.hasherSlots <==> h in hs
    requires t.successfulBids.list == before.trailWins[t] + [b]
    requires forall u :: u in ts && u != t ==> u.successfulBids.list == before.trailWins[u]
    requires forall h :: h in hs ==> h.successfulBids.list == before.hasherWins[h]
    requires forall h :: h in hs ==> h.successfulBids.slotKeys == before.hasherSlots[h]
    ensures LedgerOf(ts, hs) == Allocation.FileWithTrail(before, t, b)
  {
    var now := LedgerOf(ts, hs);
    var after := Allocation.FileWithTrail(before, t, b);
    Allocation.SameMaps(now.trailWins, after.trailWins);
    Allocation.SameMaps(now.hasherWins, after.hasherWins);
    Allocation.SameMaps(now.hasherSlots, after.hasherSlots);
  }

  /** The ledger the successful bids form once `h` gained bid `b` in slot `slot`. */
  lemma {:induction false} LedgerAfterHasherWin(ts: set<Trail>, hs: set<Hasher>, before: Allocation.Ledger<Bid, Trail, Hasher>, h: Hasher, b: Bid, slot: string)
    requires h in hs
    requires forall t :: t in before.trailWins <==> t in ts
    requires forall g :: g in before.hasherWins <==> g in hs
    requires forall g :: g in before.hasherSlots <==> g in hs
    requires h.successfulBids.list == before.hasherWins[h] + [b]
    requires h.successfulBids.slotKeys == before.hasherSlots[h] + [slot]
    requires forall t :: t in ts ==> t.successfulBids.list == before.trailWins[t]
    requires forall g :: g in hs && g != h ==> g.successfulBids.list == before.hasherWins[g]
    requires forall g :: g in hs && g != h ==> g.successfulBids.slotKeys == before.hasherSlots[g]
    ensures LedgerOf(ts, hs) == Allocation.FileWithHasher(before, h, b, slot)
  {
    var now := LedgerOf(ts, hs);
    var after := Allocation.FileWithHasher(before, h, b, slot);
    Allocation.SameMaps(now.trailWins, after.trailWins);
    Allocation.SameMaps(now.hasherWins, after.hasherWins);
    Allocation.SameMaps(now.hasherSlots, after.hasherSlots);
  }

  // ---- what a run keeps: capacity, one win per slot, wins among the submitted bids ----

  /** No trail of `ts` holds more successful bids than its capacity, and no hasher of `hs`
      has two wins filed under the same time-slot id. */
  ghost predicate Within(l: Allocation.Ledger<Bid, Trail, Hasher>, ts: set<Trail>, hs: set<Hasher>) {
    && (forall t :: t in ts ==> |Allocation.At(l.trailWins, t)| <= t.capacity)
    && (forall h :: h in hs ==> Allocation.NoDuplicates(Allocation.At(l.hasherSlots, h)))
  }

  /** `Within`, read off the trails' and hashers' successful bids. */
  ghost predicate WithinLimits(ts: set<Trail>, hs: set<Hasher>)
    reads set t | t in ts :: t.successfulBids
    reads set h | h in hs :: h.successfulBids
  {
    Within(LedgerOf(ts, hs), ts, hs)
  }

  /** The submitted bids of each trail of `ts`, and of each hasher of `hs`. */
  ghost function TrailSubmissions(ts: set<Trail>): map<Trail, seq<Bid>>
    reads set t | t in ts :: t.bids
  {
    map t | t in ts :: t.bids.list
  }

  ghost function HasherSubmissions(hs: set<Hasher>): map<Hasher, seq<Bid>>
    reads set h | h in hs :: h.bids
  {
    map h | h in hs :: h.bids.list
  }

  /** Every bid of `s` is among the submissions `tb` of its trail and `hb` of its hasher. */
  ghost predicate Submitted(s: seq<Bid>, tb: map<Trail, seq<Bid>>, hb: map<Hasher, seq<Bid>>) {
    forall b :: b in s ==> b.trail in tb && b in tb[b.trail] && b.hasher in hb && b in hb[b.hasher]
  }

  /** Every win recorded in `l` is among the submissions of its trail and of its hasher. */
  ghost predicate WinsSubmitted(l: Allocation.Ledger<Bid, Trail, Hasher>, tb: map<Trail, seq<Bid>>, hb: map<Hasher, seq<Bid>>) {
    && (forall t, b :: t in tb && b in Allocation.At(l.trailWins, t) ==> b in tb[t])
    && (forall h, b :: h in hb && b in Allocation.At(l.hasherWins, h) ==> b in hb[h])
  }

  /** Trying the bids `s` in order keeps every trail within its capacity and every hasher
      at one win per time slot. */
  lemma {:induction false} RunStaysWithin(s: seq<Bid>, l: Allocation.Ledger<Bid, Trail, Hasher>, ts: set<Trail>, hs: set<Hasher>)
    requires Linked(s) && Within(l, ts, hs)
    ensures Within(Allocation.Run(Claims(s), l), ts, hs)
  {
    var cs := Claims(s);
    forall t | t in ts ensures |Allocation.At(Allocation.Run(cs, l).trailWins, t)| <= t.capacity {
      assert Allocation.CapacityOf(cs, t, t.capacity);
      Allocation.RunWithinCapacity(cs, l, t, t.capacity);
    }
    forall h | h in hs ensures Allocation.NoDuplicates(Allocation.At(Allocation.Run(cs, l).hasherSlots, h)) {
      Allocation.RunKeepsSlotsDistinct(cs, l, h);
    }
  }

  /** Trying submitted bids only ever awards submitted bids. */
  lemma {:induction false} RunWinsSubmitted(s: seq<Bid>, l: Allocation.Ledger<Bid, Trail, Hasher>, tb: map<Trail, seq<Bid>>, hb: map<Hasher, seq<Bid>>)
    requires Linked(s) && Submitted(s, tb, hb) && WinsSubmitted(l, tb, hb)
    ensures WinsSubmitted(Allocation.Run(Claims(s), l), tb, hb)
  {
    var cs := Claims(s);
    var r := Allocation.Run(cs, l);
    forall t, b | t in tb && b in Allocation.At(r.trailWins, t) ensures b in tb[t] {
      Allocation.RunTrailWins(cs, l, t);
      if b !in Allocation.At(l.trailWins, t) {
        Allocation.TrailWonFromClaims(cs, l, t, b);
        var i :| 0 <= i < |cs| && cs[i].bid == b && cs[i].trail == t && Allocation.Won(cs, l, i);
        assert s[i] in s;
      }
    }
    forall h, b | h in hb && b in Allocation.At(r.hasherWins, h) ensures b in hb[h] {
      Allocation.RunHasherWins(cs, l, h);
      if b !in Allocation.At(l.hasherWins, h) {
        Allocation.HasherWonFromClaims(cs, l, h, b);
        var i :| 0 <= i < |cs| && cs[i].bid == b && cs[i].hasher == h && Allocation.Won(cs, l, i);
        assert s[i] in s;
      }
    }
  }

  /** A hasher attends a time slot exactly when one of its wins was filed under that
      slot's id. */
  lemma {:induction false} AttendingIffFiled(h: Hasher, id: string)
    requires h.Valid()
    ensures h.IsAttendingTimeSlot(id) <==> id in h.successfulBids.slotKeys
  {
    SlotIndexLookup(h.successfulBids.inserted, h.successfulBids.slotKeys, id);
    SlotIndexKeys(h.successfulBids.inserted, h.successfulBids.slotKeys, id);
  }

  // ---- the award loop `Trail.runBid` was meant to run ----

  /** The guard documented for `Trail.runBid` (trail.py:236-241, 247-251) for bid `b` on
      trail `t` of slot `slot`: the trail is below capacity, none of its wins is by the
      bid's hasher, and that hasher won nothing in the slot. */
  predicate TrailGrants(b: Bid, t: Trail, slot: string, l: Allocation.Ledger<Bid, Trail, Hasher>) {
    && |Allocation.At(l.trailWins, t)| < t.capacity
    && ByHasher(Allocation.At(l.trailWins, t), b.hasher.id) == []
    && slot !in Allocation.At(l.hasherSlots, b.hasher)
  }

  function TryOnTrail(b: Bid, t: Trail, slot: string, l: Allocation.Ledger<Bid, Trail, Hasher>): Allocation.Ledger<Bid, Trail, Hasher> {
    if TrailGrants(b, t, slot, l) then Allocation.FileWithHasher(Allocation.FileWithTrail(l, t, b), b.hasher, b, slot) else l
  }

  /** `Trail.runBid` with the lookup it names read as `getBidsByHasherId(...).count == 0`:
      the bids are tried in order and the loop stops as soon as the trail is full. */
  function TrailRunIntended(bs: seq<Bid>, t: Trail, slot: string, l: Allocation.Ledger<Bid, Trail, Hasher>): Allocation.Ledger<Bid, Trail, Hasher>
    decreases |bs|
  {
    if bs == [] || |Allocation.At(l.trailWins, t)| >= t.capacity then l
    else TrailRunIntended(bs[1..], t, slot, TryOnTrail(bs[0], t, slot, l))
  }

  /** The intended loop never takes the trail past its capacity, never gives a hasher two
      places on the trail and never gives a hasher a second win in the slot. */
  lemma {:induction false} TrailRunIntendedSafe(bs: seq<Bid>, t: Trail, slot: string, l: Allocation.Ledger<Bid, Trail, Hasher>, h: Hasher, k: int)
    requires |ByHasher(Allocation.At(l.trailWins, t), k)| <= 1
    requires Allocation.NoDuplicates(Allocation.At(l.hasherSlots, h))
    ensures |Allocation.At(TrailRunIntended(bs, t, slot, l).trailWins, t)| <= Allocation.Max(|Allocation.At(l.trailWins, t)|, t.capacity)
    ensures |ByHasher(Allocation.At(TrailRunIntended(bs, t, slot, l).trailWins, t), k)| <= 1
    ensures Allocation.NoDuplicates(Allocation.At(TrailRunIntended(bs, t, slot, l).hasherSlots, h))
    decreases |bs|
  {
    if bs != [] && |Allocation.At(l.trailWins, t)| < t.capacity {
      var l2 := TryOnTrail(bs[0], t, slot, l);
      TryOnTrailSafe(bs[0], t, slot, l, h, k);
      TrailRunIntendedSafe(bs[1..], t, slot, l2, h, k);
      assert TrailRunIntended(bs, t, slot, l) == TrailRunIntended(bs[1..], t, slot, l2);
    }
  }

  /** One bid tried on a trail with room keeps it within capacity, keeps each hasher to
      one place on it and keeps each hasher to one win in the slot. */
  lemma {:induction false} TryOnTrailSafe(b: Bid, t: Trail, slot: string, l: Allocation.Ledger<Bid, Trail, Hasher>, h: Hasher, k: int)
    requires |Allocation.At(l.trailWins, t)| < t.capacity
    requires |ByHasher(Allocation.At(l.trailWins, t), k)| <= 1
    requires Allocation.NoDuplicates(Allocation.At(l.hasherSlots, h))
    ensures |Allocation.At(TryOnTrail(b, t, slot, l).trailWins, t)| <= t.capacity
    ensures |ByHasher(Allocation.At(TryOnTrail(b, t, slot, l).trailWins, t), k)| <= 1
    ensures Allocation.NoDuplicates(Allocation.At(TryOnTrail(b, t, slot, l).hasherSlots, h))
  {
    if TrailGrants(b, t, slot, l) {
      var l2 := Allocation.FileWithHasher(Allocation.FileWithTrail(l, t, b), b.hasher, b, slot);
      assert TryOnTrail(b, t, slot, l) == l2;
      var w := Allocation.At(l.trailWins, t);
      assert Allocation.At(l2.trailWins, t) == w + [b];
      ByHasherSnoc(w, b, k);
      if b.hasher == h {
        assert Allocation.At(l2.hasherSlots, h) == Allocation.At(l.hasherSlots, h) + [slot];
        NoDuplicatesSnoc(Allocation.At(l.hasherSlots, h), slot);
      } else {
        assert Allocation.At(l2.hasherSlots, h) == Allocation.At(l.hasherSlots, h);
      }
    }
  }

  lemma {:induction false} ByHasherSnoc(w: seq<Bid>, b: Bid, k: int)
    ensures ByHasher(w + [b], k) == ByHasher(w, k) + (if b.hasher.id == k then [b] else [])
  {
    assert (w + [b])[..|w + [b]| - 1] == w;
  }

  /** A value not yet in a sequence without repeats can be appended without one. */
  lemma {:induction false} NoDuplicatesSnoc<V>(ss: seq<V>, x: V)
    requires Allocation.NoDuplicates(ss) && x !in ss
    ensures Allocation.NoDuplicates(ss + [x])
  {
    forall i, j | 0 <= i < j < |ss + [x]| ensures (ss + [x])[i] != (ss + [x])[j] {
      if j == |ss| { assert (ss + [x])[i] == ss[i]; }
    }
  }

  /** No element occurs twice; stated on the multiset so that reordering keeps it. */
  ghost predicate Unique<T>(s: seq<T>) {
    forall x :: x in s ==> multiset(s)[x] == 1
  }

  lemma {:induction false} RepeatedCounts<T>(s: seq<T>, i: int, j: int)
    requires 0 <= i < j < |s| && s[i] == s[j]
    ensures multiset(s)[s[i]] >= 2
  {
    assert s == s[..j] + s[j..];
    assert s[i] in s[..j];
    assert s[j] in s[j..];
  }

  // ---- collections of trails ----

  /** The lists of `ss`, one after another. */
  function Flatten<T>(ss: seq<seq<T>>): seq<T> {
    if ss == [] then [] else Flatten(ss[..|ss| - 1]) + ss[|ss| - 1]
  }

  lemma {:induction false} FlattenStep<T>(ss: seq<seq<T>>, i: int)
    requires 0 <= i < |ss|
    ensures Flatten(ss[..i + 1]) == Flatten(ss[..i]) + ss[i]
  {
    assert ss[..i + 1][..i] == ss[..i];
  }

  /** The submitted-bid lists of the trails `ts`. */
  ghost function BidLists(ts: seq<Trail>): (r: seq<seq<Bid>>)
    reads set t | t in ts :: t.bids
    ensures |r| == |ts| && forall k :: 0 <= k < |ts| ==> r[k] == ts[k].bids.list
  {
    if ts == [] then []
    else
      assert ts[|ts| - 1] in ts;
      BidLists(ts[..|ts| - 1]) + [ts[|ts| - 1].bids.list]
  }

  /** The submitted bids of the trails `ts`, trail after trail. */
  ghost function AllBids(ts: seq<Trail>): seq<Bid>
    reads set t | t in ts :: t.bids
  {
    Flatten(BidLists(ts))
  }

  /** The trails `ts[k]` whose slot id `ids[k]` is `id`, in order. */
  function PickSlot(ts: seq<Trail>, ids: seq<string>, id: string): seq<Trail>
    requires |ids| == |ts|
  {
    if ts == [] then []
    else
      var n := |ts| - 1;
      PickSlot(ts[..n], ids[..n], id) + (if ids[n] == id then [ts[n]] else [])
  }

  lemma {:induction false} PickSlotStep(ts: seq<Trail>, ids: seq<string>, id: string, i: int)
    requires |ids| == |ts| && 0 <= i < |ts|
    ensures PickSlot(ts[..i + 1], ids[..i + 1], id) == PickSlot(ts[..i], ids[..i], id) + (if ids[i] == id then [ts[i]] else [])
  {
    assert ts[..i + 1][..i] == ts[..i];
    assert ids[..i + 1][..i] == ids[..i];
  }

  /** `PickSlot` keeps exactly the trails whose slot id is `id`. */
  lemma {:induction false} PickSlotMembers(ts: seq<Trail>, ids: seq<string>, id: string, t: Trail)
    requires |ids| == |ts|
    ensures t in PickSlot(ts, ids, id) <==> exists k :: 0 <= k < |ts| && ts[k] == t && ids[k] == id
  {
    if ts != [] {
      var n := |ts| - 1;
      PickSlotMembers(ts[..n], ids[..n], id, t);
      if t in PickSlot(ts[..n], ids[..n], id) {
        var k :| 0 <= k < n && ts[..n][k] == t && ids[..n][k] == id;
        assert ts[k] == t && ids[k] == id;
      }
      if exists k :: 0 <= k < |ts| && ts[k] == t && ids[k] == id {
        var k :| 0 <= k < |ts| && ts[k] == t && ids[k] == id;
        if k < n { assert ts[..n][k] == t && ids[..n][k] == id; }
      }
    }
  }

  /** The slot ids of the linked trails `ts`. */
  ghost function SlotIdsOfTrails(ts: seq<Trail>): (r: seq<string>)
    requires forall t :: t in ts ==> t.timeSlot != null
    reads set t | t in ts
    ensures |r| == |ts| && forall k :: 0 <= k < |ts| ==> r[k] == ts[k].timeSlot.id
  {
    if ts == [] then []
    else
      assert ts[|ts| - 1] in ts;
      SlotIdsOfTrails(ts[..|ts| - 1]) + [ts[|ts| - 1].timeSlot.id]
  }

  /** The trails of `ts` linked to time-slot id `id`, in order. */
  ghost function InSlot(ts: seq<Trail>, id: string): seq<Trail>
    requires forall t :: t in ts ==> t.timeSlot != null
    reads set t | t in ts
  {
    PickSlot(ts, SlotIdsOfTrails(ts), id)
  }

  /** `InSlot` keeps exactly the trails linked to slot id `id`. */
  lemma {:induction false} InSlotMembers(ts: seq<Trail>, id: string, t: Trail)
    requires forall t :: t in ts ==> t.timeSlot != null
    ensures t in InSlot(ts, id) <==> t in ts && t.timeSlot.id == id
  {
    var ids := SlotIdsOfTrails(ts);
    PickSlotMembers(ts, ids, id, t);
    if t in ts && t.timeSlot.id == id {
      var k :| 0 <= k < |ts| && ts[k] == t;
      assert ids[k] == id;
    }
  }

  lemma {:induction false} HashersOfAppend(a: seq<Bid>, b: seq<Bid>)
    ensures HashersOf(a + b) == HashersOf(a) + HashersOf(b)
  {
  }

  /** `addUnique` over `hs` leaves a hasher id present exactly when it was present before
      or is the id of some hasher of `hs`. */
  lemma {:induction false} AddUniqueHasId(acc: seq<Hasher>, hs: seq<Hasher>, id: int)
    ensures HasHasherId(AddUniqueHashers(acc, hs), id) <==> HasHasherId(acc, id) || HasHasherId(hs, id)
  {
    if hs != [] {
      var n := |hs| - 1;
      AddUniqueHasId(acc, hs[..n], id);
      var r := AddUniqueHashers(acc, hs[..n]);
      assert forall j :: 0 <= j < n ==> hs[..n][j] == hs[j];
      assert forall j :: 0 <= j < |r| ==> (r + [hs[n]])[j] == r[j];
      assert (r + [hs[n]])[|r|] == hs[n];
    }
  }

  /** `addUnique` over a concatenation is `addUnique` over the parts in turn. */
  lemma {:induction false} AddUniqueAppend(acc: seq<Hasher>, xs: seq<Hasher>, ys: seq<Hasher>)
    ensures AddUniqueHashers(acc, xs + ys) == AddUniqueHashers(AddUniqueHashers(acc, xs), ys)
    decreases |ys|
  {
    if ys == [] {
      assert xs + ys == xs;
    } else {
      var n := |ys| - 1;
      assert (xs + ys)[..|xs + ys| - 1] == xs + ys[..n];
      assert (xs + ys)[|xs + ys| - 1] == ys[n];
      AddUniqueAppend(acc, xs, ys[..n]);
    }
  }

  /** Adding a list already without repeated ids changes nothing: merging the hashers of
      each trail gives the hashers of all their bids. */
  lemma {:induction false} AddUniqueOfUnique(acc: seq<Hasher>, xs: seq<Hasher>)
    ensures AddUniqueHashers(acc, AddUniqueHashers([], xs)) == AddUniqueHashers(acc, xs)
  {
    if xs != [] {
      var n := |xs| - 1;
      var x := xs[n];
      var d := AddUniqueHashers([], xs[..n]);
      AddUniqueOfUnique(acc, xs[..n]);
      if HasHasherId(d, x.id) {
        AddUniqueHasId([], xs[..n], x.id);
        AddUniqueHasId(acc, xs[..n], x.id);
      } else {
        assert (d + [x])[..|d|] == d;
      }
    }
  }

  /** The members of `addUnique`'s result come from `acc` or `hs`. */
  lemma {:induction false} AddUniqueWithin(acc: seq<Hasher>, hs: seq<Hasher>)
    ensures forall h :: h in AddUniqueHashers(acc, hs) ==> h in acc || h in hs
  {
    if hs != [] {
      AddUniqueWithin(acc, hs[..|hs| - 1]);
      assert forall h :: h in hs[..|hs| - 1] ==> h in hs;
    }
  }

  /** One more trail's hashers merged into the hashers of the trails before it. */
  lemma {:induction false} TrailHashersStep(ss: seq<seq<Bid>>, i: int, before: seq<Hasher>, found: seq<Hasher>, after: seq<Hasher>)
    requires 0 <= i < |ss|
    requires before == AddUniqueHashers([], HashersOf(Flatten(ss[..i])))
    requires found == AddUniqueHashers([], HashersOf(ss[i]))
    requires after == AddUniqueHashers(before, found)
    ensures after == AddUniqueHashers([], HashersOf(Flatten(ss[..i + 1])))
  {
    FlattenStep(ss, i);
    HashersOfAppend(Flatten(ss[..i]), ss[i]);
    AddUniqueAppend([], HashersOf(Flatten(ss[..i])), HashersOf(ss[i]));
    AddUniqueOfUnique(AddUniqueHashers([], HashersOf(Flatten(ss[..i]))), HashersOf(ss[i]));
  }

  /** The sort key of `Trails.sortByBidValue` (trail.py:471-473). */
  function BidValueKey(t: Trail): Key
    reads t.bids
  {
    [Num(-SumValues(t.bids.list)), Num(|t.bids.list|), Txt(t.id)]
  }

  function BidValueKeys(s: seq<Trail>): (r: seq<Key>)
    reads set t | t in s :: t.bids
    ensures |r| == |s| && forall i :: 0 <= i < |s| ==> r[i] == BidValueKey(s[i])
  {
    if s == [] then []
    else
      assert s[|s| - 1] in s;
      BidValueKeys(s[..|s| - 1]) + [BidValueKey(s[|s| - 1])]
  }

  function SequenceKeys(s: seq<Trail>): (r: seq<Key>)
    ensures |r| == |s| && forall i :: 0 <= i < |s| ==> r[i] == [Num(s[i].sequence)]
  {
    if s == [] then [] else SequenceKeys(s[..|s| - 1]) + [[Num(s[|s| - 1].sequence)]]
  }

  /** Sorting by bid value leaves the trails' total bid values descending. */
  lemma {:induction false} SortedByBidValue(items: seq<Trail>)
    ensures BidValuesDescend(SortBy(items, BidValueKeys(items)))
  {
    var keys := BidValueKeys(items);
    var r := SortBy(items, keys);
    var m := map t | t in items :: -t.BidValue();
    SortByMappedNumbers(items, keys, m);
    forall i, j | 0 <= i < j < |r| ensures r[j].BidValue() <= r[i].BidValue() {
      assert m[r[i]] <= m[r[j]];
    }
  }

  /** Total bid values never rise along `ts`. */
  ghost predicate BidValuesDescend(ts: seq<Trail>)
    reads set t | t in ts :: t.bids
  {
    forall i, j :: 0 <= i < j < |ts| ==> ts[j].BidValue() <= ts[i].BidValue()
  }

  /** For each trail, whether it has submitted bids and room for more. */
  ghost function OpenTrails(ts: seq<Trail>): (r: seq<bool>)
    reads set t | t in ts :: t.bids
    reads set t | t in ts :: t.successfulBids
    ensures |r| == |ts|
    ensures forall k :: 0 <= k < |ts| ==> r[k] == (ts[k].bids.list != [] && |ts[k].successfulBids.list| < ts[k].capacity)
  {
    if ts == [] then []
    else
      var t := ts[|ts| - 1];
      assert t in ts;
      OpenTrails(ts[..|ts| - 1]) + [t.bids.list != [] && |t.successfulBids.list| < t.capacity]
  }

  /** Every trail of `ts` keeps its own invariant. */
  ghost predicate AllValid(ts: seq<Trail>)
    reads set t | t in ts :: t.bids
    reads set t | t in ts :: t.successfulBids
  {
    forall t :: t in ts ==> t.Valid()
  }

  /** Some trail of `ts` has submitted bids and room for more. */
  ghost predicate AnyOpen(ts: seq<Trail>)
    reads set t | t in ts :: t.bids
    reads set t | t in ts :: t.successfulBids
  {
    exists t :: t in ts && t.bids.list != [] && |t.successfulBids.list| < t.capacity
  }

  /** Reordering the trails changes neither whether all are valid nor whether one is open. */
  lemma {:induction false} SameTrails(a: seq<Trail>, b: seq<Trail>)
    requires multiset(b) == multiset(a)
    ensures AllValid(b) == AllValid(a)
    ensures AnyOpen(b) == AnyOpen(a)
  {
    SameMembers(a, b);
  }

  /** The trails' own collections as they were keep the trails' validity, openness and
      order by bid value as they were. */
  twostate lemma {:induction false} TrailsFramed(r: seq<Trail>)
    requires forall t :: t in r ==> unchanged(t.bids, t.successfulBids)
    ensures AllValid(r) == old(AllValid(r)) && AnyOpen(r) == old(AnyOpen(r))
    ensures BidValuesDescend(r) == old(BidValuesDescend(r))
  {
  }

  /** A trail collection (trail.py:272-279): a list and a dict from trail id to trail. */
  class Trails {
    var list: seq<Trail>
    var lookupIDs: map<string, Trail>

    /** The dict holds exactly the ids of the listed trails, each at its own trail, and no
        trail is listed twice. */
    ghost predicate Valid()
      reads this
    {
      && (forall t :: t in list ==> t.id in lookupIDs && lookupIDs[t.id] == t)
      && (forall k :: k in lookupIDs ==> lookupIDs[k] in list && lookupIDs[k].id == k)
      && Unique(list)
    }

    constructor()
      ensures Valid() && list == [] && lookupIDs == map[]
    {
      list := [];
      lookupIDs := map[];
    }

    /** `len(self.list)` (trail.py:320-325). */
    function Count(): nat
      reads this
    {
      |list|
    }

    /** The trail stored under `id`, or `None` (trail.py:369-373). */
    function GetById(id: string): (r: Option<Trail>)
      requires Valid()
      reads this
      ensures r.Some? <==> HasTrailId(list, id)
      ensures r.Some? ==> r.value in list && r.value.id == id
    {
      if id in lookupIDs then
        var t := lookupIDs[id];
        assert t in list;
        var i :| 0 <= i < |list| && list[i] == t;
        Some(t)
      else
        assert !HasTrailId(list, id) by {
          forall i | 0 <= i < |list| ensures list[i].id != id {
            assert list[i] in list;
          }
        }
        None
    }

    /** Two listed trails never share an id. */
    lemma IdsDistinct(i: int, j: int)
      requires Valid() && 0 <= i < j < |list|
      ensures list[i].id != list[j].id
    {
      if list[i].id == list[j].id {
        assert list[i] in list && list[j] in list;
        RepeatedCounts(list, i, j);
      }
    }

    /** No trail picked from before position `i` shares the id of the trail at `i`. */
    lemma {:induction false} PickedApart(ids: seq<string>, id: string, i: int)
      requires Valid() && |ids| == |list| && 0 <= i < |list|
      ensures !HasTrailId(PickSlot(list[..i], ids[..i], id), list[i].id)
    {
      var p := PickSlot(list[..i], ids[..i], id);
      forall k | 0 <= k < |p| ensures p[k].id != list[i].id {
        PickSlotMembers(list[..i], ids[..i], id, p[k]);
        var m :| 0 <= m < i && list[..i][m] == p[k] && ids[..i][m] == id;
        IdsDistinct(m, i);
      }
    }

    /** Insert a trail whose id is new; a known id raises `DuplicateError` and changes
        nothing (trail.py:329-340). */
    method Add(t: Trail) returns (o: Outcome)
      requires Valid()
      modifies this
      ensures Valid()
      ensures o == Ok <==> !HasTrailId(old(list), t.id)
      ensures o != Ok ==> o == DuplicateError
      ensures o == Ok ==> list == old(list) + [t] && lookupIDs == old(lookupIDs)[t.id := t]
      ensures o != Ok ==> list == old(list) && lookupIDs == old(lookupIDs)
    {
      var found := GetById(t.id);
      if t.id !in lookupIDs {
        assert t !in list;
        list := list + [t];
        lookupIDs := lookupIDs[t.id := t];
        o := Ok;
      } else {
        o := DuplicateError;
      }
    }

    /** `if result.getById(t.id) is None: result.add(t)` (bid.py:309-310). */
    method AddIfAbsent(t: Trail)
      requires Valid()
      modifies this
      ensures Valid()
      ensures list == if HasTrailId(old(list), t.id) then old(list) else old(list) + [t]
    {
      var found := GetById(t.id);
      if found.None? {
        var _ := Add(t);
      }
    }

    /** `add` with the `DuplicateError` swallowed (trail.py:344-354). */
    method AddUnique(t: Trail)
      requires Valid()
      modifies this
      ensures Valid()
      ensures list == if HasTrailId(old(list), t.id) then old(list) else old(list) + [t]
    {
      var _ := Add(t);
    }

    /** A fresh collection of all the trails' submitted bids, trail after trail
        (trail.py:358-365). */
    method GetBids() returns (r: Bids)
      requires forall t :: t in list ==> Linked(t.bids.list)
      ensures fresh(r) && r.Valid() && r.role == Loose
      ensures r.list == AllBids(list) && r.inserted == r.list
    {
      r := CollectBids(BidLists(list));
    }

    /** The loop of `getBids`, over the bid lists `pieces` of the listed trails. */
    method CollectBids(ghost pieces: seq<seq<Bid>>) returns (r: Bids)
      requires forall t :: t in list ==> Linked(t.bids.list)
      requires |pieces| == |list| && forall k :: 0 <= k < |list| ==> pieces[k] == list[k].bids.list
      ensures fresh(r) && r.Valid() && r.role == Loose
      ensures r.list == Flatten(pieces) && r.inserted == r.list
    {
      r := new Bids(Loose, Nobody);
      var i := 0;
      while i < |list|
        invariant 0 <= i <= |list|
        invariant fresh(r) && r.Valid() && r.role == Loose
        invariant r.list == Flatten(pieces[..i]) && r.inserted == r.list
      {
        assert list[i] in list;
        Gather(r, list[i]);
        FlattenStep(pieces, i);
        i := i + 1;
      }
      PrefixWhole(pieces);
    }

    /** One turn of that loop: `r.merge(trail.getBids())`. */
    method Gather(r: Bids, t: Trail)
      requires r.Valid() && r.role == Loose && r.inserted == r.list && Linked(t.bids.list)
      modifies r
      ensures r.Valid() && r.role == Loose
      ensures r.list == old(r.list) + old(t.bids.list) && r.inserted == r.list
    {
      var tb := t.GetBids();
      r.Merge(tb.list);
    }

    /** A fresh collection of the hashers who bid on the trails, once per hasher id, in
        order of first bid (trail.py:377-385). */
    method GetHashers() returns (r: Hashers)
      ensures fresh(r) && r.Valid() && r.list == AddUniqueHashers([], HashersOf(AllBids(list)))
    {
      ghost var pieces := BidLists(list);
      r := new Hashers();
      var i := 0;
      while i < |list|
        invariant 0 <= i <= |list|
        invariant fresh(r) && r.Valid() && r.list == AddUniqueHashers([], HashersOf(Flatten(pieces[..i])))
        invariant forall k :: 0 <= k < |list| ==> pieces[k] == list[k].bids.list
      {
        var hs := list[i].GetHashers();
        ghost var before := r.list;
        r.AddEachUnique(hs.list);
        TrailHashersStep(pieces, i, before, hs.list, r.list);
        i := i + 1;
      }
      PrefixWhole(pieces);
    }

    /** A fresh collection of the trails linked to time-slot id `id`, in list order
        (trail.py:389-398). */
    method GetTrailsByTimeSlotId(id: string) returns (r: Trails)
      requires Valid() && forall t :: t in list ==> t.timeSlot != null
      ensures fresh(r) && r.Valid() && r.list == InSlot(list, id)
      ensures forall t :: t in r.list <==> t in list && t.timeSlot.id == id
    {
      r := PickTrails(id, SlotIdsOfTrails(list));
      forall t ensures t in r.list <==> t in list && t.timeSlot.id == id {
        InSlotMembers(list, id, t);
      }
    }

    /** The loop of `getTrailsByTimeSlotId`, over the slot ids `ids` of the listed trails. */
    method PickTrails(id: string, ghost ids: seq<string>) returns (r: Trails)
      requires Valid() && forall t :: t in list ==> t.timeSlot != null
      requires |ids| == |list| && forall k :: 0 <= k < |list| ==> ids[k] == list[k].timeSlot.id
      ensures fresh(r) && r.Valid() && r.list == PickSlot(list, ids, id)
    {
      r := new Trails();
      var i := 0;
      while i < |list|
        invariant 0 <= i <= |list|
        invariant fresh(r) && r.Valid() && r.list == PickSlot(list[..i], ids[..i], id)
      {
        var t := list[i];
        PickSlotStep(list, ids, id, i);
        if t.timeSlot.id == id {
          PickedApart(ids, id, i);
          r.AddUnique(t);
        }
        i := i + 1;
      }
      PrefixWhole(list);
      PrefixWhole(ids);
    }

    /** Replace the list by a reordering of itself. */
    method Reorder(r: seq<Trail>)
      requires Valid() && multiset(r) == multiset(list)
      modifies this
      ensures Valid() && lookupIDs == old(lookupIDs) && list == r
      ensures AllValid(list) == old(AllValid(list)) && AnyOpen(list) == old(AnyOpen(list))
      ensures BidValuesDescend(list) == old(BidValuesDescend(r))
    {
      SameMembers(list, r);
      SameTrails(list, r);
      list := r;
      TrailsFramed(r);
    }

    /** Sort by descending total bid value, then fewer bids, then trail id, and return the
        list (trail.py:463-474). */
    method SortByBidValue() returns (r: seq<Trail>)
      requires Valid()
      modifies this
      ensures Valid() && lookupIDs == old(lookupIDs) && r == list
      ensures list == SortBy(old(list), old(BidValueKeys(list))) && multiset(list) == multiset(old(list))
      ensures BidValuesDescend(list)
      ensures AllValid(list) == old(AllValid(list)) && AnyOpen(list) == old(AnyOpen(list))
    {
      var keys := BidValueKeys(list);
      SortByKeeps(list, keys);
      SortedByBidValue(list);
      Reorder(SortBy(list, keys));
      r := list;
    }

    /** Sort by ascending sequence and return the list (trail.py:478-486). */
    method SortBySequence() returns (r: seq<Trail>)
      requires Valid()
      modifies this
      ensures Valid() && lookupIDs == old(lookupIDs) && r == list
      ensures list == SortBy(old(list), SequenceKeys(old(list))) && multiset(list) == multiset(old(list))
      ensures forall i, j :: 0 <= i < j < |list| ==> list[i].sequence <= list[j].sequence
    {
      var keys := SequenceKeys(list);
      SortByKeeps(list, keys);
      SortByLeadingNumbers(list, keys, (t: Trail) => t.sequence);
      Reorder(SortBy(list, keys));
      r := list;
    }

    /** `runBid` (trail.py:454-459): sort by bid value, then the per-trail `runBid` of each
        trail in turn. That one raises `AttributeError` on the first trail that has bids and
        room, so the pass ends there, and otherwise awards nothing. Each trail tried re-sorts
        its own submitted bids equitably, as `Trail.RunBid` states; what those lists become
        is left unspecified here, only that nothing else changes. */
    method RunBid() returns (o: Outcome)
      requires Valid() && AllValid(list)
      modifies this, set t | t in list :: t.bids
      ensures Valid() && multiset(list) == multiset(old(list))
      ensures list == SortBy(old(list), old(BidValueKeys(list)))
      ensures o == AttributeError <==> old(AnyOpen(list))
      ensures o != AttributeError ==> o == Ok
    {
      ghost var anyOpen := AnyOpen(list);
      var l := SortByBidValue();
      o := RunAll(anyOpen);
    }

    /** `trail.runBid()` for each listed trail in turn, until one raises. */
    method RunAll(ghost anyOpen: bool) returns (o: Outcome)
      requires Valid() && AllValid(list) && anyOpen == AnyOpen(list)
      modifies set t | t in list :: t.bids
      ensures o == AttributeError <==> anyOpen
      ensures o != AttributeError ==> o == Ok
    {
      forall i, j | 0 <= i < j < |list| ensures list[i].id != list[j].id {
        IdsDistinct(i, j);
      }
      ghost var open := OpenTrails(list);
      assert (exists k :: 0 <= k < |list| && open[k]) <==> anyOpen;
      o := RunEach(list, open);
    }

    /** One trail's `runBid`, as the loop over the trails uses it: `open` says whether the
        trail has submitted bids and room. */
    method RunOne(t: Trail, ghost open: bool) returns (o: Outcome)
      requires t.Valid() && open == (t.bids.list != [] && |t.successfulBids.list| < t.capacity)
      modifies t.bids
      ensures o == AttributeError <==> open
      ensures o != AttributeError ==> o == Ok
    {
      o := t.RunBid();
    }

    /** The loop of `runBid` over the trails `l`, whose ids are distinct; `open` says for
        each trail whether it has submitted bids and room. */
    method RunEach(l: seq<Trail>, ghost open: seq<bool>) returns (o: Outcome)
      requires forall t :: t in l ==> t.Valid()
      requires forall i, j :: 0 <= i < j < |l| ==> l[i].id != l[j].id
      requires |open| == |l|
      requires forall k :: 0 <= k < |l| ==> open[k] == (l[k].bids.list != [] && |l[k].successfulBids.list| < l[k].capacity)
      modifies set t | t in l :: t.bids
      ensures o == AttributeError <==> exists k :: 0 <= k < |l| && open[k]
      ensures o != AttributeError ==> o == Ok
    {
      var i := 0;
      while i < |l|
        invariant 0 <= i <= |l|
        invariant forall k :: i <= k < |l| ==> unchanged(l[k].bids)
        invariant forall k :: 0 <= k < i ==> !open[k]
      {
        var t := l[i];
        assert t in l;
        assert old(t.Valid());
        forall k | i < k < |l| ensures l[k].bids != t.bids {
          assert l[k] in l;
        }
        var r := RunOne(t, open[i]);
        if r != Ok {
          o := r;
          return;
        }
        i := i + 1;
      }
      o := Ok;
    }
  }

  /** The hasher fields the `sortBy*` methods of `Hashers` order by. */
  datatype HasherField = ById | ByName | ByOrder | ByRank | BySequence

  /** The key `list.sort(key = lambda hasher: hasher.<field>)` computes for `h`. */
  function FieldKey(h: Hasher, f: HasherField): Key
    reads h
  {
    match f
    case ByName => [Txt(h.name)]
    case _ => [Num(NumField(h, f))]
  }

  /** The value of a numeric field (`name` reads as 0). */
  function NumField(h: Hasher, f: HasherField): int
    reads h
  {
    match f
    case ById => h.id
    case ByName => 0
    case ByOrder => h.order
    case ByRank => h.rank
    case BySequence => h.sequence
  }

  function FieldKeys(s: seq<Hasher>, f: HasherField): (r: seq<Key>)
    reads set h | h in s
    ensures |r| == |s| && forall i :: 0 <= i < |s| ==> r[i] == FieldKey(s[i], f)
  {
    if s == [] then []
    else
      assert s[|s| - 1] in s;
      FieldKeys(s[..|s| - 1], f) + [FieldKey(s[|s| - 1], f)]
  }

  /** Sequences with the same multiset have the same members and the same repeats. */
  lemma {:induction false} SameMembers<T>(s: seq<T>, r: seq<T>)
    requires multiset(r) == multiset(s)
    ensures forall x :: x in r <==> x in s
    ensures Unique(s) ==> Unique(r)
  {
    forall x ensures x in r <==> x in s {
      assert x in r <==> x in multiset(r);
      assert x in s <==> x in multiset(s);
    }
  }

  /** Field `f` never falls along `s`: names in `StrLess` order, the other fields as
      numbers. */
  predicate FieldAscending(s: seq<Hasher>, f: HasherField)
    reads set h | h in s
  {
    if f == ByName then forall i, j :: 0 <= i < j < |s| ==> !StrLess(s[j].name, s[i].name)
    else forall i, j :: 0 <= i < j < |s| ==> NumField(s[i], f) <= NumField(s[j], f)
  }

  /** A numeric field that never falls, read off `FieldAscending`. */
  lemma {:induction false} NumbersAscend(s: seq<Hasher>, f: HasherField)
    requires f != ByName && FieldAscending(s, f)
    ensures f == ById ==> forall i, j :: 0 <= i < j < |s| ==> s[i].id <= s[j].id
    ensures f == ByOrder ==> forall i, j :: 0 <= i < j < |s| ==> s[i].order <= s[j].order
    ensures f == ByRank ==> forall i, j :: 0 <= i < j < |s| ==> s[i].rank <= s[j].rank
    ensures f == BySequence ==> forall i, j :: 0 <= i < j < |s| ==> s[i].sequence <= s[j].sequence
  {
    forall i, j | 0 <= i < j < |s| ensures NumField(s[i], f) <= NumField(s[j], f) {
    }
  }

  /** The stable sort on a field leaves that field in ascending order. */
  lemma {:induction false} SortedByField(items: seq<Hasher>, f: HasherField)
    ensures FieldAscending(SortBy(items, FieldKeys(items, f)), f)
  {
    if f == ByName {
      SortedByName(items);
    } else {
      SortedByNumber(items, f);
    }
  }

  lemma {:induction false} SortedByName(items: seq<Hasher>)
    ensures FieldAscending(SortBy(items, FieldKeys(items, ByName)), ByName)
  {
    SortByLeadingTexts(items, FieldKeys(items, ByName), (h: Hasher) => h.name);
  }

  lemma {:induction false} SortedByNumber(items: seq<Hasher>, f: HasherField)
    requires f != ByName
    ensures FieldAscending(SortBy(items, FieldKeys(items, f)), f)
  {
    var keys := FieldKeys(items, f);
    var m := map h | h in items :: NumField(h, f);
    SortByMappedNumbers(items, keys, m);
  }

  /** Two positions of a sequence without repeats hold different elements. */
  lemma {:induction false} UniqueApart<T>(s: seq<T>, i: int, j: int)
    requires Unique(s) && 0 <= i < |s| && 0 <= j < |s| && i != j
    ensures s[i] != s[j]
  {
    if s[i] == s[j] {
      assert s[i] in s;
      if i < j { RepeatedCounts(s, i, j); } else { RepeatedCounts(s, j, i); }
    }
  }

  /** Hasher `hs[i]` has order `i + 1` and rank `sequence * sequence * (i + 1)`. */
  ghost predicate Numbered(hs: seq<Hasher>)
    reads set h | h in hs
  {
    forall i :: 0 <= i < |hs| ==> hs[i].order == i + 1 && hs[i].rank == hs[i].sequence * hs[i].sequence * (i + 1)
  }

  /** The keys `sortByRank` reads once `sortByRandom` has numbered the shuffled hashers
      `s`: each hasher's sequence squared times its 1-based place (hasher.py:426-431). */
  function DrawnKeys(s: seq<Hasher>): seq<Key> {
    seq(|s|, i requires 0 <= i < |s| => [Num(s[i].sequence * s[i].sequence * (i + 1))])
  }

  /** Numbered hashers are sorted by rank on exactly those keys. */
  lemma {:induction false} NumberedKeys(s: seq<Hasher>)
    requires Numbered(s)
    ensures FieldKeys(s, ByRank) == DrawnKeys(s)
  {
    forall i | 0 <= i < |s| ensures FieldKeys(s, ByRank)[i] == DrawnKeys(s)[i] {
      assert s[i].rank == s[i].sequence * s[i].sequence * (i + 1);
    }
  }

  /** A hasher collection (hasher.py:187-190): a list and a dict from `int(id)` to hasher. */
  class Hashers {
    var list: seq<Hasher>
    var lookupIDs: map<int, Hasher>

    ghost predicate Valid()
      reads this
    {
      && (forall h :: h in list ==> h.id in lookupIDs && lookupIDs[h.id] == h)
      && (forall k :: k in lookupIDs ==> lookupIDs[k] in list && lookupIDs[k].id == k)
      && Unique(list)
    }

    constructor()
      ensures Valid() && list == [] && lookupIDs == map[]
    {
      list := [];
      lookupIDs := map[];
    }

    /** `len(self.list)` (hasher.py:228-233). */
    function Count(): nat
      reads this
    {
      |list|
    }

    /** The hasher stored under `id`, or `None` (hasher.py:266-271). */
    function GetById(id: int): (r: Option<Hasher>)
      requires Valid()
      reads this
      ensures r.Some? <==> HasHasherId(list, id)
      ensures r.Some? ==> r.value in list && r.value.id == id
    {
      if id in lookupIDs then
        var h := lookupIDs[id];
        assert h in list;
        var i :| 0 <= i < |list| && list[i] == h;
        Some(h)
      else
        assert !HasHasherId(list, id) by {
          forall i | 0 <= i < |list| ensures list[i].id != id {
            assert list[i] in list;
          }
        }
        None
    }

    /** Two listed hashers never share an id. */
    lemma IdsDistinct(i: int, j: int)
      requires Valid() && 0 <= i < j < |list|
      ensures list[i].id != list[j].id
    {
      if list[i].id == list[j].id {
        assert list[i] in list && list[j] in list;
        RepeatedCounts(list, i, j);
      }
    }

    /** Insert a hasher whose id is new; a known id raises `DuplicateError` and changes
        nothing (hasher.py:237-248). */
    method Add(h: Hasher) returns (o: Outcome)
      requires Valid()
      modifies this
      ensures Valid()
      ensures o == Ok <==> !HasHasherId(old(list), h.id)
      ensures o != Ok ==> o == DuplicateError
      ensures o == Ok ==> list == old(list) + [h] && lookupIDs == old(lookupIDs)[h.id := h]
      ensures o != Ok ==> list == old(list) && lookupIDs == old(lookupIDs)
    {
      var found := GetById(h.id);
      if h.id !in lookupIDs {
        assert h !in list;
        list := list + [h];
        lookupIDs := lookupIDs[h.id := h];
        o := Ok;
      } else {
        o := DuplicateError;
      }
    }

    /** `add` with the `DuplicateError` swallowed (hasher.py:252-262). */
    method AddUnique(h: Hasher)
      requires Valid()
      modifies this
      ensures Valid()
      ensures list == if HasHasherId(old(list), h.id) then old(list) else old(list) + [h]
    {
      var _ := Add(h);
    }

    /** `addUnique` for each of `hs` in turn (the inner loop of trail.py:382-384). */
    method AddEachUnique(hs: seq<Hasher>)
      requires Valid()
      modifies this
      ensures Valid() && list == AddUniqueHashers(old(list), hs)
    {
      var j := 0;
      while j < |hs|
        invariant 0 <= j <= |hs|
        invariant Valid() && list == AddUniqueHashers(old(list), hs[..j])
      {
        PrefixStep(hs, j);
        AddUnique(hs[j]);
        j := j + 1;
      }
      PrefixWhole(hs);
    }

    /** Reorder the list by the stable sort on field `f`; the hashers themselves and the
        dict stay as they are. */
    method SortByField(f: HasherField)
      requires Valid()
      modifies this
      ensures Valid() && lookupIDs == old(lookupIDs)
      ensures list == SortBy(old(list), FieldKeys(old(list), f)) && multiset(list) == multiset(old(list))
      ensures FieldAscending(list, f)
    {
      var keys := FieldKeys(list, f);
      SortByKeeps(list, keys);
      SortedByField(list, f);
      Reorder(SortBy(list, keys));
    }

    /** Replace the list by a reordering of itself. */
    method Reorder(r: seq<Hasher>)
      requires Valid() && multiset(r) == multiset(list)
      modifies this
      ensures Valid() && lookupIDs == old(lookupIDs) && list == r
      ensures forall f :: FieldAscending(list, f) == old(FieldAscending(r, f))
    {
      SameMembers(list, r);
      list := r;
    }

    /** `sortById` (hasher.py:354-360). */
    method SortById()
      requires Valid()
      modifies this
      ensures Valid() && lookupIDs == old(lookupIDs)
      ensures list == SortBy(old(list), FieldKeys(old(list), ById)) && multiset(list) == multiset(old(list))
      ensures forall i, j :: 0 <= i < j < |list| ==> list[i].id <= list[j].id
    {
      SortByField(ById);
      NumbersAscend(list, ById);
    }

    /** `sortByName` (hasher.py:364-370). */
    method SortByName()
      requires Valid()
      modifies this
      ensures Valid() && lookupIDs == old(lookupIDs)
      ensures list == SortBy(old(list), FieldKeys(old(list), ByName)) && multiset(list) == multiset(old(list))
      ensures forall i, j :: 0 <= i < j < |list| ==> !StrLess(list[j].name, list[i].name)
    {
      SortByField(ByName);
    }

    /** `sortByOrder` (hasher.py:374-381). */
    method SortByOrder()
      requires Valid()
      modifies this
      ensures Valid() && lookupIDs == old(lookupIDs)
      ensures list == SortBy(old(list), FieldKeys(old(list), ByOrder)) && multiset(list) == multiset(old(list))
      ensures forall i, j :: 0 <= i < j < |list| ==> list[i].order <= list[j].order
    {
      SortByField(ByOrder);
      NumbersAscend(list, ByOrder);
    }

    /** `sortByRank` (hasher.py:385-393). */
    method SortByRank()
      requires Valid()
      modifies this
      ensures Valid() && lookupIDs == old(lookupIDs)
      ensures list == SortBy(old(list), FieldKeys(old(list), ByRank)) && multiset(list) == multiset(old(list))
      ensures forall i, j :: 0 <= i < j < |list| ==> list[i].rank <= list[j].rank
    {
      SortByField(ByRank);
      NumbersAscend(list, ByRank);
    }

    /** `sortBySequence` (hasher.py:397-403). */
    method SortBySequence()
      requires Valid()
      modifies this
      ensures Valid() && lookupIDs == old(lookupIDs)
      ensures list == SortBy(old(list), FieldKeys(old(list), BySequence)) && multiset(list) == multiset(old(list))
      ensures forall i, j :: 0 <= i < j < |list| ==> list[i].sequence <= list[j].sequence
    {
      SortByField(BySequence);
      NumbersAscend(list, BySequence);
    }

    /** `sortByRandom` (hasher.py:407-431): shuffle with the swap partners `draws`, number
        the hashers 1, 2, ... in shuffled order, set `rank = sequence * sequence * order`,
        and sort by rank. */
    method SortByRandom(draws: seq<nat>)
      requires Valid()
      modifies this, set h | h in list
      ensures Valid() && lookupIDs == old(lookupIDs)
      ensures list == SortBy(Shuffled(old(list), draws), FieldKeys(Shuffled(old(list), draws), ByRank))
      ensures multiset(list) == multiset(old(list))
      ensures Numbered(Shuffled(old(list), draws))
      ensures forall i, j :: 0 <= i < j < |list| ==> list[i].rank <= list[j].rank
    {
      Shuffle(draws);
      SameMembers(old(list), list);
      Number();
      ghost var s := list;
      SortByRank();
      assert list == SortBy(s, FieldKeys(s, ByRank));
    }

    /** The numbering loop of `sortByRandom` (hasher.py:426-430): `order` is the 1-based
        position and `rank` is `sequence * sequence * order`. */
    method Number()
      requires Valid()
      modifies set h | h in list
      ensures Numbered(list)
    {
      var i := 0;
      while i < |list|
        invariant 0 <= i <= |list|
        invariant forall k :: 0 <= k < i ==> list[k].order == k + 1 && list[k].rank == list[k].sequence * list[k].sequence * (k + 1)
      {
        var h := list[i];
        forall k | 0 <= k < i ensures list[k] != h {
          UniqueApart(list, k, i);
        }
        h.order := i + 1;
        h.rank := h.sequence * h.sequence * h.order;
        i := i + 1;
      }
    }

    /** `random.shuffle(self.list)`, with the swap partners given. */
    method Shuffle(draws: seq<nat>)
      requires Valid()
      modifies this
      ensures Valid() && lookupIDs == old(lookupIDs)
      ensures list == Shuffled(old(list), draws) && multiset(list) == multiset(old(list))
    {
      ShuffledPermutes(list, draws);
      Reorder(Shuffled(list, draws));
    }
  }

  // ---- time slots ----

  /** Every bid of `s` is on a trail of `ts` by a hasher of `hs`. */
  ghost predicate Among(s: seq<Bid>, ts: set<Trail>, hs: set<Hasher>) {
    forall b :: b in s ==> b.trail in ts && b.hasher in hs
  }

  /** A bid of one of the trails is among the bids of all of them. */
  lemma {:induction false} InAllBids(ts: seq<Trail>, k: int, b: Bid)
    requires 0 <= k < |ts| && b in ts[k].bids.list
    ensures b in AllBids(ts)
  {
    var n := |ts| - 1;
    assert ts[n] in ts;
    assert BidLists(ts) == BidLists(ts[..n]) + [ts[n].bids.list];
    if k < n {
      assert ts[..n][k] == ts[k];
      InAllBids(ts[..n], k, b);
    }
  }

  /** Every trail's bids point at scheduled trails when all of them are among `ts`. */
  lemma {:induction false} TrailsLinked(tl: seq<Trail>, ts: set<Trail>, hs: set<Hasher>)
    requires Among(AllBids(tl), ts, hs) && TrailsReady(ts)
    ensures forall t :: t in tl ==> Linked(t.bids.list)
  {
    forall t | t in tl ensures Linked(t.bids.list) {
      forall b | b in t.bids.list ensures b.trail.timeSlot != null {
        var k :| 0 <= k < |tl| && tl[k] == t;
        InAllBids(tl, k, b);
      }
    }
  }

  /** The hashers of the bids `s` are the hashers of `hs` when every bid is among them. */
  lemma {:induction false} HashersAmong(s: seq<Bid>, ts: set<Trail>, hs: set<Hasher>)
    requires Among(s, ts, hs)
    ensures forall h :: h in AddUniqueHashers([], HashersOf(s)) ==> h in hs
  {
    AddUniqueWithin([], HashersOf(s));
    forall h | h in HashersOf(s) ensures h in hs {
      var i :| 0 <= i < |s| && HashersOf(s)[i] == h;
      assert s[i] in s;
    }
  }

  /** A time slot and the trails scheduled in it (timeSlot.py:23-41). */
  class TimeSlot {
    const id: string
    var sequence: int
    const name: string
    const trails: Trails

    /** `TimeSlot(id, sequence, name)`: id and name stripped, no trails; the conversion
        `int(sequence)` is done by the caller. */
    constructor(id: string, sequence: int, name: string)
      ensures this.id == Strip(id) && this.sequence == sequence && this.name == Strip(name)
      ensures fresh(trails) && trails.Valid() && trails.list == []
    {
      this.id := Strip(id);
      this.sequence := sequence;
      this.name := Strip(name);
      this.trails := new Trails();
    }

    /** Schedule a trail in this slot (timeSlot.py:50-55): a trail id already here raises
        `DuplicateError` and changes nothing. */
    method AddTrail(t: Trail) returns (o: Outcome)
      requires trails.Valid()
      modifies trails
      ensures trails.Valid()
      ensures o == Ok <==> !HasTrailId(old(trails.list), t.id)
      ensures o != Ok ==> o == DuplicateError
      ensures o == Ok ==> trails.list == old(trails.list) + [t]
      ensures o != Ok ==> trails.list == old(trails.list) && trails.lookupIDs == old(trails.lookupIDs)
    {
      o := trails.Add(t);
    }

    /** All bids on the slot's trails, trail after trail (timeSlot.py:59-63). */
    method GetBids() returns (r: Bids)
      requires forall t :: t in trails.list ==> Linked(t.bids.list)
      ensures fresh(r) && r.Valid() && r.role == Loose
      ensures r.list == AllBids(trails.list) && r.inserted == r.list
    {
      r := trails.GetBids();
    }

    /** The hashers who bid on the slot's trails, once per id (timeSlot.py:67-72). */
    method GetHashers() returns (r: Hashers)
      ensures fresh(r) && r.Valid() && r.list == AddUniqueHashers([], HashersOf(AllBids(trails.list)))
    {
      r := trails.GetHashers();
    }

    /** Resolve this slot (timeSlot.py:145-157): draw fresh orders and ranks for exactly
        the hashers who bid here, shuffled by `draws`; merge the bids of the slot's trails
        into a new collection, trail after trail; and run the award rule over it. The merge
        loop is the one `Trails.getBids` runs. The bids are tried in the equitable order of
        the merged list, keyed by the wins and submissions at entry and by the ranks just
        drawn. The ghost results are the hashers in drawn order, the ranks the sort read
        and the bids in the order they were tried. */
    method RunBid(draws: seq<nat>, ghost ts: set<Trail>, ghost hs: set<Hasher>)
        returns (ghost drawn: seq<Hasher>, ghost ranks: seq<int>, ghost tried: seq<Bid>)
      requires Among(AllBids(trails.list), ts, hs)
      requires TrailsReady(ts)
      requires HashersReady(hs)
      requires DistinctWins(ts, hs)
      modifies hs
      modifies set t | t in ts :: t.successfulBids
      modifies set h | h in hs :: h.successfulBids
      ensures drawn == Shuffled(AddUniqueHashers([], HashersOf(old(AllBids(trails.list)))), draws)
      ensures Numbered(drawn)
      ensures EquitablyOrdered(tried, old(AllBids(trails.list)), old(LedgerOf(ts, hs)).hasherWins,
                               old(HasherSubmissions(hs)), old(TrailSubmissions(ts)), drawn, ranks)
      ensures multiset(tried) == multiset(old(AllBids(trails.list)))
      ensures TrailsReady(ts)
      ensures HashersReady(hs)
      ensures Linked(tried) && LedgerOf(ts, hs) == Allocation.Run(Claims(tried), old(LedgerOf(ts, hs)))
      ensures Allocation.ValuesDescend(Claims(tried))
      ensures old(WithinLimits(ts, hs)) ==> WithinLimits(ts, hs)
    {
      ghost var all := AllBids(trails.list);
      ghost var l0, hb, tb := LedgerOf(ts, hs), HasherSubmissions(hs), TrailSubmissions(ts);
      KeysOnValues(all, ts, hs);
      ghost var r0 := Ranks(all);
      drawn := DrawRanks(draws, ts, hs, all);
      ranks, tried := Settle(ts, hs, drawn, all);
      RerankedSlotKeys(all, l0.hasherWins, hb, tb, r0, ranks);
    }

    /** The rest of `runBid` once the ranks are drawn (timeSlot.py:153-157): merge the
        slot's bids and run them, sorted by the keys they have now. */
    method Settle(ghost ts: set<Trail>, ghost hs: set<Hasher>, ghost drawn: seq<Hasher>, ghost all: seq<Bid>)
        returns (ghost ranks: seq<int>, ghost tried: seq<Bid>)
      requires all == AllBids(trails.list) && Among(all, ts, hs) && Numbered(drawn)
      requires TrailsReady(ts)
      requires HashersReady(hs)
      requires DistinctWins(ts, hs)
      modifies set t | t in ts :: t.successfulBids
      modifies set h | h in hs :: h.successfulBids
      ensures ranks == old(Ranks(all)) && Numbered(drawn)
      ensures forall i :: 0 <= i < |ranks| && all[i].hasher in drawn ==> ranks[i] == DrawnRank(all[i].hasher, drawn)
      ensures tried == SortBy(all, old(EquitableKeys(all))) && multiset(tried) == multiset(all)
      ensures TrailsReady(ts)
      ensures HashersReady(hs)
      ensures Linked(tried) && LedgerOf(ts, hs) == Allocation.Run(Claims(tried), old(LedgerOf(ts, hs)))
      ensures Allocation.ValuesDescend(Claims(tried))
      ensures old(WithinLimits(ts, hs)) ==> WithinLimits(ts, hs)
    {
      var bids := Merged(ts, hs, drawn, all);
      ranks := Ranks(all);
      DrawnRanks(all, drawn);
      tried := Resolve(bids, ts, hs, drawn);
    }

    /** `self.trails.getHashers().sortByRandom()` (timeSlot.py:150). Only orders and
        ranks change. */
    method DrawRanks(draws: seq<nat>, ghost ts: set<Trail>, ghost hs: set<Hasher>, ghost all: seq<Bid>)
        returns (ghost drawn: seq<Hasher>)
      requires all == AllBids(trails.list) && Among(all, ts, hs)
      requires TrailsReady(ts)
      requires HashersReady(hs)
      modifies hs
      ensures drawn == Shuffled(AddUniqueHashers([], HashersOf(old(AllBids(trails.list)))), draws)
      ensures Numbered(drawn)
      ensures AllBids(trails.list) == old(AllBids(trails.list))
      ensures TrailsReady(ts) && HashersReady(hs)
      ensures LedgerOf(ts, hs) == old(LedgerOf(ts, hs))
      ensures EquitableKeys(all) == Reranked(old(EquitableKeys(all)), Ranks(all))
    {
      var hashers := Collected(ts, hs, all);
      HashersAmong(AllBids(trails.list), ts, hs);
      drawn := Shuffled(hashers.list, draws);
      Redrawn(hashers, draws, ts, hs, all);
    }

    /** `self.trails.getHashers()`: a fresh collection of hashers, all of them among `hs`. */
    method Collected(ghost ts: set<Trail>, ghost hs: set<Hasher>, ghost all: seq<Bid>) returns (hashers: Hashers)
      requires TrailsReady(ts)
      requires HashersReady(hs)
      ensures fresh(hashers) && hashers.Valid()
      ensures hashers.list == AddUniqueHashers([], HashersOf(AllBids(trails.list)))
      ensures AllBids(trails.list) == old(AllBids(trails.list))
      ensures TrailsReady(ts) && HashersReady(hs)
      ensures LedgerOf(ts, hs) == old(LedgerOf(ts, hs))
      ensures EquitableKeys(all) == old(EquitableKeys(all))
    {
      hashers := Gathered(ts, hs);
      KeysKept(all);
    }

    /** `getHashers` seen from the slot: the trails' bids and the ledger stay as they were. */
    method Gathered(ghost ts: set<Trail>, ghost hs: set<Hasher>) returns (hashers: Hashers)
      requires TrailsReady(ts)
      requires HashersReady(hs)
      ensures fresh(hashers) && hashers.Valid()
      ensures hashers.list == AddUniqueHashers([], HashersOf(AllBids(trails.list)))
      ensures AllBids(trails.list) == old(AllBids(trails.list))
      ensures TrailsReady(ts) && HashersReady(hs)
      ensures LedgerOf(ts, hs) == old(LedgerOf(ts, hs))
    {
      hashers := GetHashers();
    }

    /** `.sortByRandom()` on those hashers, touching nothing else. */
    method Redrawn(hashers: Hashers, draws: seq<nat>, ghost ts: set<Trail>, ghost hs: set<Hasher>, ghost all: seq<Bid>)
      requires hashers.Valid() && forall h :: h in hashers.list ==> h in hs
      requires TrailsReady(ts)
      requires HashersReady(hs)
      modifies hashers, hs
      ensures Numbered(Shuffled(old(hashers.list), draws))
      ensures AllBids(trails.list) == old(AllBids(trails.list))
      ensures TrailsReady(ts) && HashersReady(hs)
      ensures LedgerOf(ts, hs) == old(LedgerOf(ts, hs))
      ensures EquitableKeys(all) == Reranked(old(EquitableKeys(all)), Ranks(all))
    {
      Redraw(hashers, draws, hs, all);
      assert TrailsReady(ts) && HashersReady(hs);
    }

    /** `sortByRandom` seen from the slot: the hashers are numbered in shuffled order. */
    method Redraw(hashers: Hashers, draws: seq<nat>, ghost hs: set<Hasher>, ghost s: seq<Bid>)
      requires hashers.Valid() && forall h :: h in hashers.list ==> h in hs
      modifies hashers, hs
      ensures Numbered(Shuffled(old(hashers.list), draws))
      ensures EquitableKeys(s) == Reranked(old(EquitableKeys(s)), Ranks(s))
    {
      hashers.SortByRandom(draws);
      KeysReranked(s);
    }

    /** The merge loop of timeSlot.py:155-156: a fresh collection of the slot's bids. */
    method Merged(ghost ts: set<Trail>, ghost hs: set<Hasher>, ghost drawn: seq<Hasher>, ghost all: seq<Bid>)
        returns (bids: Bids)
      requires all == AllBids(trails.list) && Among(all, ts, hs) && Numbered(drawn)
      requires TrailsReady(ts)
      requires HashersReady(hs)
      ensures fresh(bids) && bids.Valid() && bids.role == Loose
      ensures bids.list == all && Numbered(drawn)
      ensures TrailsReady(ts) && HashersReady(hs)
      ensures LedgerOf(ts, hs) == old(LedgerOf(ts, hs))
      ensures EquitableKeys(all) == old(EquitableKeys(all)) && Ranks(all) == old(Ranks(all))
    {
      TrailsLinked(trails.list, ts, hs);
      bids := GetBids();
      KeysKept(all);
    }

    /** `bids.runBid()` over the merged collection (timeSlot.py:157). */
    method Resolve(bids: Bids, ghost ts: set<Trail>, ghost hs: set<Hasher>, ghost drawn: seq<Hasher>) returns (ghost tried: seq<Bid>)
      requires bids.Valid() && bids.role == Loose && Numbered(drawn)
      requires Among(bids.list, ts, hs)
      requires TrailsReady(ts)
      requires HashersReady(hs)
      requires DistinctWins(ts, hs)
      modifies bids
      modifies set t | t in ts :: t.successfulBids
      modifies set h | h in hs :: h.successfulBids
      ensures tried == SortBy(old(bids.list), old(EquitableKeys(bids.list)))
      ensures multiset(tried) == multiset(old(bids.list)) && Numbered(drawn)
      ensures TrailsReady(ts)
      ensures HashersReady(hs)
      ensures Linked(tried) && LedgerOf(ts, hs) == Allocation.Run(Claims(tried), old(LedgerOf(ts, hs)))
      ensures Allocation.ValuesDescend(Claims(tried))
      ensures old(WithinLimits(ts, hs)) ==> WithinLimits(ts, hs)
    {
      bids.RunBid(ts, hs);
      tried := bids.list;
    }
  }
}
