/** The greedy award rule of `Bid.runBid` (bid.py:107-110) applied to a list of bids in
    processing order, on plain values. A claim is one bid as the rule sees it; the ledger
    is what the rule reads and writes: each trail's successful bids, each hasher's
    successful bids and the time-slot ids those wins were filed under. */
module Allocation {

  /** One bid as the award rule reads it: the trail's time-slot id and capacity and the
      bid value, taken when the bid is tried. */
  datatype Claim<B, T, H> = Claim(bid: B, trail: T, hasher: H, slot: string, capacity: int, value: int)

  datatype Ledger<B, T, H> = Ledger(
    trailWins: map<T, seq<B>>,
    hasherWins: map<H, seq<B>>,
    hasherSlots: map<H, seq<string>>)

  /** A map of lists read with an empty default. */
  function At<K, V>(m: map<K, seq<V>>, k: K): seq<V> {
    if k in m then m[k] else []
  }

  predicate NoDuplicates<V(==)>(s: seq<V>) {
    forall i, j :: 0 <= i < j < |s| ==> s[i] != s[j]
  }

  /** `not trail.isAtCapacity() and not hasher.isAttendingTimeSlot(slot)`. */
  predicate Grants<B(==), T(==), H(==)>(c: Claim<B, T, H>, l: Ledger<B, T, H>) {
    |At(l.trailWins, c.trail)| < c.capacity && c.slot !in At(l.hasherSlots, c.hasher)
  }

  /** Try one claim: on success the bid goes to the end of the trail's and the hasher's
      successful bids, and the hasher's wins gain the slot id. */
  function Apply<B(==), T(==), H(==)>(c: Claim<B, T, H>, l: Ledger<B, T, H>): Ledger<B, T, H> {
    if Grants(c, l) then FileWithHasher(FileWithTrail(l, c.trail, c.bid), c.hasher, c.bid, c.slot) else l
  }

  /** `trail.addSuccessfulBid(bid)`. */
  function FileWithTrail<B, T(==), H>(l: Ledger<B, T, H>, t: T, b: B): Ledger<B, T, H> {
    l.(trailWins := l.trailWins[t := At(l.trailWins, t) + [b]])
  }

  /** `hasher.addSuccessfulBid(bid)`, filed under the slot id. */
  function FileWithHasher<B, T, H(==)>(l: Ledger<B, T, H>, h: H, b: B, slot: string): Ledger<B, T, H> {
    l.(hasherWins := l.hasherWins[h := At(l.hasherWins, h) + [b]],
       hasherSlots := l.hasherSlots[h := At(l.hasherSlots, h) + [slot]])
  }

  /** What one claim does to one trail's and one hasher's entries. */
  lemma {:induction false} ApplyAt<B, T, H>(c: Claim<B, T, H>, l: Ledger<B, T, H>, t: T, h: H)
    ensures At(Apply(c, l).trailWins, t)
            == if Grants(c, l) && t == c.trail then At(l.trailWins, t) + [c.bid] else At(l.trailWins, t)
    ensures At(Apply(c, l).hasherWins, h)
            == if Grants(c, l) && h == c.hasher then At(l.hasherWins, h) + [c.bid] else At(l.hasherWins, h)
    ensures At(Apply(c, l).hasherSlots, h)
            == if Grants(c, l) && h == c.hasher then At(l.hasherSlots, h) + [c.slot] else At(l.hasherSlots, h)
  {
  }

  lemma {:induction false} SameMaps<K, V>(m: map<K, V>, n: map<K, V>)
    requires m.Keys == n.Keys && forall k :: k in m ==> m[k] == n[k]
    ensures m == n
  {
  }

  /** Try every claim once, front to back. */
  function Run<B(==), T(==), H(==)>(cs: seq<Claim<B, T, H>>, l: Ledger<B, T, H>): Ledger<B, T, H> {
    if cs == [] then l else Apply(cs[|cs| - 1], Run(cs[..|cs| - 1], l))
  }

  /** Trying one more claim. */
  lemma {:induction false} RunSnoc<B, T, H>(cs: seq<Claim<B, T, H>>, l: Ledger<B, T, H>, i: int)
    requires 0 <= i < |cs|
    ensures Run(cs[..i + 1], l) == Apply(cs[i], Run(cs[..i], l))
  {
    assert cs[..i + 1][..i] == cs[..i];
  }

  /** Trying `a` and then `b` is trying `a + b`. */
  lemma {:induction false} RunAppend<B, T, H>(a: seq<Claim<B, T, H>>, b: seq<Claim<B, T, H>>, l: Ledger<B, T, H>)
    ensures Run(a + b, l) == Run(b, Run(a, l))
    decreases |b|
  {
    if b == [] {
      assert a + b == a;
    } else {
      var n := |b| - 1;
      RunAppend(a, b[..n], l);
      assert (a + b)[..|a + b| - 1] == a + b[..n];
      assert (a + b)[|a + b| - 1] == b[n];
    }
  }

  /** Claim `i` is tried against the ledger the claims before it left, and wins there. */
  predicate Won<B(==), T(==), H(==)>(cs: seq<Claim<B, T, H>>, l: Ledger<B, T, H>, i: int)
    requires 0 <= i < |cs|
  {
    Grants(cs[i], Run(cs[..i], l))
  }

  /** The bids of the winning claims on trail `t`, in processing order. */
  function TrailWon<B(==), T(==), H(==)>(cs: seq<Claim<B, T, H>>, l: Ledger<B, T, H>, t: T): seq<B> {
    if cs == [] then []
    else
      var n := |cs| - 1;
      TrailWon(cs[..n], l, t) + (if cs[n].trail == t && Grants(cs[n], Run(cs[..n], l)) then [cs[n].bid] else [])
  }

  /** The bids of the winning claims by hasher `h`, in processing order. */
  function HasherWon<B(==), T(==), H(==)>(cs: seq<Claim<B, T, H>>, l: Ledger<B, T, H>, h: H): seq<B> {
    if cs == [] then []
    else
      var n := |cs| - 1;
      HasherWon(cs[..n], l, h) + (if cs[n].hasher == h && Grants(cs[n], Run(cs[..n], l)) then [cs[n].bid] else [])
  }

  /** Every claim on the same trail carries that trail's capacity. */
  predicate CapacityOf<B(==), T(==), H(==)>(cs: seq<Claim<B, T, H>>, t: T, cap: int) {
    forall i :: 0 <= i < |cs| && cs[i].trail == t ==> cs[i].capacity == cap
  }

  function Max(a: int, b: int): int { if a < b then b else a }

  /** A trail never ends above its capacity unless it started above it. */
  lemma {:induction false} RunWithinCapacity<B, T, H>(cs: seq<Claim<B, T, H>>, l: Ledger<B, T, H>, t: T, cap: int)
    requires CapacityOf(cs, t, cap)
    ensures |At(Run(cs, l).trailWins, t)| <= Max(|At(l.trailWins, t)|, cap)
  {
    if cs != [] {
      var n := |cs| - 1;
      assert CapacityOf(cs[..n], t, cap) by {
        forall i | 0 <= i < n && cs[..n][i].trail == t ensures cs[..n][i].capacity == cap {
          assert cs[..n][i] == cs[i];
        }
      }
      RunWithinCapacity(cs[..n], l, t, cap);
    }
  }

  /** One win per time-slot id: a hasher never gains a slot id it already holds. */
  lemma {:induction false} RunKeepsSlotsDistinct<B, T, H>(cs: seq<Claim<B, T, H>>, l: Ledger<B, T, H>, h: H)
    requires NoDuplicates(At(l.hasherSlots, h))
    ensures NoDuplicates(At(Run(cs, l).hasherSlots, h))
  {
    if cs != [] {
      var n := |cs| - 1;
      RunKeepsSlotsDistinct(cs[..n], l, h);
      var before := Run(cs[..n], l);
      var s := At(before.hasherSlots, h);
      if Grants(cs[n], before) && cs[n].hasher == h {
        var s' := s + [cs[n].slot];
        assert At(Run(cs, l).hasherSlots, h) == s';
        forall i, j | 0 <= i < j < |s'| ensures s'[i] != s'[j] {
          if j == |s| { assert s'[i] == s[i]; }
        }
      }
    }
  }

  /** A trail's successful bids after the run are those from before followed by the
      bids won on it, in processing order. */
  lemma {:induction false} RunTrailWins<B, T, H>(cs: seq<Claim<B, T, H>>, l: Ledger<B, T, H>, t: T)
    ensures At(Run(cs, l).trailWins, t) == At(l.trailWins, t) + TrailWon(cs, l, t)
  {
    if cs != [] {
      RunTrailWins(cs[..|cs| - 1], l, t);
    }
  }

  /** The same for a hasher's successful bids and for the slot ids they were won in. */
  lemma {:induction false} RunHasherWins<B, T, H>(cs: seq<Claim<B, T, H>>, l: Ledger<B, T, H>, h: H)
    ensures At(Run(cs, l).hasherWins, h) == At(l.hasherWins, h) + HasherWon(cs, l, h)
    ensures |At(Run(cs, l).hasherSlots, h)| == |At(l.hasherSlots, h)| + |HasherWon(cs, l, h)|
  {
    if cs != [] {
      RunHasherWins(cs[..|cs| - 1], l, h);
    }
  }

  /** Every bid won on trail `t` comes from a claim on `t` that won when it was tried. */
  lemma {:induction false} TrailWonFromClaims<B, T, H>(cs: seq<Claim<B, T, H>>, l: Ledger<B, T, H>, t: T, b: B)
    requires b in TrailWon(cs, l, t)
    ensures exists i :: 0 <= i < |cs| && cs[i].bid == b && cs[i].trail == t && Won(cs, l, i)
  {
    var n := |cs| - 1;
    if b in TrailWon(cs[..n], l, t) {
      TrailWonFromClaims(cs[..n], l, t, b);
      var i :| 0 <= i < n && cs[..n][i].bid == b && cs[..n][i].trail == t && Won(cs[..n], l, i);
      assert cs[..n][..i] == cs[..i];
      assert cs[..n][i] == cs[i];
    } else {
      assert cs[n].bid == b && cs[n].trail == t && Won(cs, l, n);
    }
  }

  /** The same for the bids a hasher won. */
  lemma {:induction false} HasherWonFromClaims<B, T, H>(cs: seq<Claim<B, T, H>>, l: Ledger<B, T, H>, h: H, b: B)
    requires b in HasherWon(cs, l, h)
    ensures exists i :: 0 <= i < |cs| && cs[i].bid == b && cs[i].hasher == h && Won(cs, l, i)
  {
    var n := |cs| - 1;
    if b in HasherWon(cs[..n], l, h) {
      HasherWonFromClaims(cs[..n], l, h, b);
      var i :| 0 <= i < n && cs[..n][i].bid == b && cs[..n][i].hasher == h && Won(cs[..n], l, i);
      assert cs[..n][..i] == cs[..i];
      assert cs[..n][i] == cs[i];
    } else {
      assert cs[n].bid == b && cs[n].hasher == h && Won(cs, l, n);
    }
  }

  /** A trail's successful bids only grow while claims are tried. */
  lemma {:induction false} TrailWinsGrow<B, T, H>(cs: seq<Claim<B, T, H>>, l: Ledger<B, T, H>, t: T, i: int, j: int)
    requires 0 <= i <= j <= |cs|
    ensures |At(Run(cs[..i], l).trailWins, t)| <= |At(Run(cs[..j], l).trailWins, t)|
    decreases j - i
  {
    if i < j {
      TrailWinsGrow(cs, l, t, i, j - 1);
      assert cs[..j][..j - 1] == cs[..j - 1];
    }
  }

  /** A bid that lost on a trail which still took a later bid lost because its hasher
      already held a win in that time slot, never because the trail was full. */
  lemma {:induction false} LoserHeldSlot<B, T, H>(cs: seq<Claim<B, T, H>>, l: Ledger<B, T, H>, i: int, j: int)
    requires 0 <= i < j < |cs| && cs[i].trail == cs[j].trail && cs[i].capacity == cs[j].capacity
    requires !Won(cs, l, i) && Won(cs, l, j)
    ensures |At(Run(cs[..i], l).trailWins, cs[i].trail)| < cs[i].capacity
    ensures cs[i].slot in At(Run(cs[..i], l).hasherSlots, cs[i].hasher)
  {
    TrailWinsGrow(cs, l, cs[i].trail, i, j);
  }

  /** Claims tried from the highest value down. */
  predicate ValuesDescend<B(==), T(==), H(==)>(cs: seq<Claim<B, T, H>>) {
    forall i, j :: 0 <= i < j < |cs| ==> cs[j].value <= cs[i].value
  }

  /** With claims tried from the highest value down: if a trail took a bid of strictly lower
      value than one it turned away, the turned-away hasher already had a win in that
      slot. */
  lemma {:induction false} OutbidOnlyBySlot<B, T, H>(cs: seq<Claim<B, T, H>>, l: Ledger<B, T, H>, i: int, j: int)
    requires ValuesDescend(cs) && 0 <= i < |cs| && 0 <= j < |cs|
    requires cs[i].trail == cs[j].trail && cs[i].capacity == cs[j].capacity
    requires cs[j].value < cs[i].value && !Won(cs, l, i) && Won(cs, l, j)
    ensures i < j
    ensures cs[i].slot in At(Run(cs[..i], l).hasherSlots, cs[i].hasher)
  {
    LoserHeldSlot(cs, l, i, j);
  }
}
