// The calendar pass (tb_calendar.py): every row `slot id, trail id` schedules that trail in
// that time slot and points the trail at the slot. The csv reading is replaced by the rows
// it yields, after the header the sniffer may have detected.

module Calendar {
  import opened Text
  import opened Entities
  import opened Slots
  import Allocation

  /** Where a pass stands: the trails of every slot, the slot of every trail, the rows
      counted, the line numbers reported as unreadable, and the exception the last row
      raised (`Ok` while none did). */
  datatype Progress = Progress(lists: map<TimeSlot, seq<Trail>>, links: map<Trail, TimeSlot?>,
                               events: nat, reported: seq<nat>, failure: Outcome)

  /** The trails scheduled in each slot of `ss`. */
  ghost function ListsOf(ss: seq<TimeSlot>): (r: map<TimeSlot, seq<Trail>>)
    reads set s | s in ss :: s.trails
    ensures r.Keys == set s | s in ss
  {
    map s | s in ss :: s.trails.list
  }

  /** The slot each trail of `tl` points at. */
  ghost function LinksOf(tl: seq<Trail>): (r: map<Trail, TimeSlot?>)
    reads set t | t in tl
    ensures r.Keys == set t | t in tl
  {
    map t | t in tl :: t.timeSlot
  }

  /** `timeSlot.addTrail(trail)` then `trail.timeSlot = timeSlot` (tb_calendar.py:55-56): a
      trail id already in the slot raises at the first call and changes nothing; otherwise the
      trail is scheduled, and the setter then raises if the trail already has a slot. */
  function Link(s: TimeSlot, t: Trail, lists: map<TimeSlot, seq<Trail>>, links: map<Trail, TimeSlot?>)
      : (r: (map<TimeSlot, seq<Trail>>, map<Trail, TimeSlot?>, Outcome))
    requires s in lists && t in links
    ensures r.0.Keys == lists.Keys && r.1.Keys == links.Keys
    ensures r.2 == Ok || r.2 == DuplicateError
  {
    if HasTrailId(lists[s], t.id) then (lists, links, DuplicateError)
    else if links[t] == null then (lists[s := lists[s] + [t]], links[t := s], Ok)
    else (lists[s := lists[s] + [t]], links, DuplicateError)
  }

  /** The two dicts a row is resolved through: the slots' `lookupIDs`, keyed by string
      ids, and the trails' `lookupIDs`. */
  datatype Lookup = Lookup(slotIds: map<DictKey, TimeSlot>, trailIds: map<string, Trail>)

  /** `timeSlots.getById(id)` on the slots' dict. */
  function SlotNamed(d: Lookup, id: string): Option<TimeSlot> {
    if StrKey(id) in d.slotIds then Some(d.slotIds[StrKey(id)]) else None
  }

  /** `trails.getById(id)` on the trails' dict. */
  function TrailNamed(d: Lookup, id: string): Option<Trail> {
    if id in d.trailIds then Some(d.trailIds[id]) else None
  }

  /** Every slot and every trail the dicts name has an entry in the schedule and the links. */
  predicate Covered(d: Lookup, lists: map<TimeSlot, seq<Trail>>, links: map<Trail, TimeSlot?>) {
    d.slotIds.Values <= lists.Keys && d.trailIds.Values <= links.Keys
  }

  /** One row at line `line` (tb_calendar.py:38-64), on the schedule and the links: whether
      it is reported, and what it raises. An empty row does nothing; a row of one field raises
      `IndexError` at `row[1]`; a row whose slot or trail is unknown links nothing and is
      reported, unless it is line 1 and both are unknown (a header the sniffer missed). */
  function RowEffect(row: seq<string>, line: nat, d: Lookup,
                     lists: map<TimeSlot, seq<Trail>>, links: map<Trail, TimeSlot?>)
      : (r: (map<TimeSlot, seq<Trail>>, map<Trail, TimeSlot?>, bool, Outcome))
    requires Covered(d, lists, links)
    ensures r.0.Keys == lists.Keys && r.1.Keys == links.Keys
  {
    if |row| == 0 then (lists, links, false, Ok)
    else if |row| == 1 then (lists, links, false, IndexError)
    else
      var slot := SlotNamed(d, Strip(row[0]));
      var trail := TrailNamed(d, Strip(row[1]));
      if slot.None? || trail.None? then
        (lists, links, !(line == 1 && slot.None? && trail.None?), Ok)
      else
        var r := Link(slot.value, trail.value, lists, links);
        (r.0, r.1, false, r.2)
  }

  /** One row of the loop (tb_calendar.py:36-64): it is counted, and reported when
      `RowEffect` says so. */
  function RowStep(row: seq<string>, line: nat, d: Lookup, p: Progress): (r: Progress)
    requires Covered(d, p.lists, p.links)
    ensures r.events == p.events + 1
    ensures r.lists.Keys == p.lists.Keys && r.links.Keys == p.links.Keys
    ensures Covered(d, r.lists, r.links)
  {
    var e := RowEffect(row, line, d, p.lists, p.links);
    Progress(e.0, e.1, p.events + 1, if e.2 then p.reported + [line] else p.reported, e.3)
  }

  /** The rows in order, row `k` at line `first + k`, up to and including the first that
      raises. */
  function Passed(rows: seq<seq<string>>, first: nat, d: Lookup, p: Progress): (r: Progress)
    requires Covered(d, p.lists, p.links)
    ensures r.lists.Keys == p.lists.Keys && r.links.Keys == p.links.Keys
    ensures Covered(d, r.lists, r.links)
    ensures p.events <= r.events <= p.events + |rows|
  {
    if rows == [] then p
    else
      var n := |rows| - 1;
      var q := Passed(rows[..n], first, d, p);
      if q.failure != Ok then q else RowStep(rows[n], first + n, d, q)
  }

  /** Every row read counts one event, empty rows included, so a pass in which no row
      raised counts exactly one event per row. */
  lemma {:induction false} PassedEvents(rows: seq<seq<string>>, first: nat, d: Lookup, p: Progress)
    requires Covered(d, p.lists, p.links) && p.failure == Ok
    ensures Passed(rows, first, d, p).failure == Ok ==> Passed(rows, first, d, p).events == p.events + |rows|
  {
    if rows != [] {
      PassedEvents(rows[..|rows| - 1], first, d, p);
    }
  }

  /** The exception `calendar` lets out of a pass: a failed link reaches the handler, whose
      first argument `filename` is not defined anywhere, so what surfaces is a `NameError`
      (tb_calendar.py:57-64); an `IndexError` from a short row is not inside the `try`. */
  function Raised(failure: Outcome): Outcome {
    if failure == DuplicateError then NameError else failure
  }

  /** What the handler evidently means to do: report the row and re-raise the exception of
      the failed link. */
  function Reraised(failure: Outcome): Outcome {
    failure
  }

  /** A calendar that lists the same slot and trail twice: the second row's `addTrail`
      raises `DuplicateError`, the handler as written turns it into a `NameError`, and the
      evident intent re-raises the `DuplicateError`. */
  lemma {:induction false} RepeatedRowSurfacesNameError(d: Lookup, s: TimeSlot, t: Trail, first: nat, p: Progress)
    requires Covered(d, p.lists, p.links)
    requires SlotNamed(d, Strip(s.id)) == Some(s) && TrailNamed(d, Strip(t.id)) == Some(t)
    requires p.failure == Ok && !HasTrailId(p.lists[s], t.id) && p.links[t] == null
    ensures var r := Passed([[s.id, t.id], [s.id, t.id]], first, d, p);
            && r.failure == DuplicateError && r.lists[s] == p.lists[s] + [t] && r.links[t] == s
            && Raised(r.failure) == NameError && Reraised(r.failure) == DuplicateError
  {
    var rows := [[s.id, t.id], [s.id, t.id]];
    assert rows[..1][..0] == [];
    var q := RowStep(rows[0], first, d, p);
    assert Passed(rows[..1], first, d, p) == q;
    assert q.lists[s][|p.lists[s]|] == t;
    assert rows[..2] == rows;
  }

  /** A link is the only step that raises `DuplicateError`, so the re-raised exception names
      a failed link and never a short row. */
  lemma {:induction false} ReraisedIsLinkError(rows: seq<seq<string>>, first: nat, d: Lookup, p: Progress)
    requires Covered(d, p.lists, p.links)
    requires p.failure == Ok
    ensures Reraised(Passed(rows, first, d, p).failure) in {Ok, IndexError, DuplicateError}
    ensures Raised(Passed(rows, first, d, p).failure) in {Ok, IndexError, NameError}
  {
    if rows != [] {
      ReraisedIsLinkError(rows[..|rows| - 1], first, d, p);
    }
  }

  /** A pass whose row `k` is the first to raise ends with what that row leaves: the rows
      after it are never read. */
  lemma {:induction false} StopsAtFailure(rows: seq<seq<string>>, first: nat, d: Lookup, p: Progress, k: nat)
    requires Covered(d, p.lists, p.links)
    requires k < |rows| && Passed(rows[..k], first, d, p).failure == Ok
    requires RowStep(rows[k], first + k, d, Passed(rows[..k], first, d, p)).failure != Ok
    ensures Passed(rows, first, d, p) == RowStep(rows[k], first + k, d, Passed(rows[..k], first, d, p))
  {
    PassedSnoc(rows, k, first, d, p);
    StoppedHere(rows, k + 1, first, d, p);
  }

  /** Linking the same slot and trail twice: the second `addTrail` finds the trail id and
      raises, and nothing changes. */
  lemma {:induction false} LinkTwice(s: TimeSlot, t: Trail, lists: map<TimeSlot, seq<Trail>>, links: map<Trail, TimeSlot?>)
    requires s in lists && t in links
    requires Link(s, t, lists, links).2 == Ok
    ensures var (l1, k1, _) := Link(s, t, lists, links);
            Link(s, t, l1, k1) == (l1, k1, DuplicateError)
  {
    var (l1, k1, _) := Link(s, t, lists, links);
    assert l1[s][|lists[s]|] == t;
  }

  /** Linking a trail to a second slot: the trail is added to that slot's trails, the setter
      then raises, and the trail still points at the first slot. */
  lemma {:induction false} LinkSecondSlot(s1: TimeSlot, s2: TimeSlot, t: Trail, lists: map<TimeSlot, seq<Trail>>, links: map<Trail, TimeSlot?>)
    requires s1 in lists && s2 in lists && t in links && s1 != s2
    requires Link(s1, t, lists, links).2 == Ok
    requires !HasTrailId(lists[s2], t.id)
    ensures var (l1, k1, _) := Link(s1, t, lists, links);
            var (l2, k2, o2) := Link(s2, t, l1, k1);
            o2 == DuplicateError && k2[t] == s1 && l2[s2] == lists[s2] + [t] && l2[s1] == lists[s1] + [t]
  {
  }

  /** The slots' trail collections are sound, all different, and apart from `trails`. */
  ghost predicate Schedulable(slots: TimeSlots, trails: Trails)
    reads slots, trails, set s | s in slots.list :: s.trails
  {
    && slots.Valid() && trails.Valid()
    && (forall s :: s in slots.list ==> s.trails.Valid() && s.trails != trails)
    && (forall s1, s2 :: s1 in slots.list && s2 in slots.list && s1 != s2 ==> s1.trails != s2.trails)
  }

  /** The dicts of the two collections. */
  function LookupOf(slots: TimeSlots, trails: Trails): Lookup
    reads slots, trails
  {
    Lookup(slots.lookupIDs, trails.lookupIDs)
  }

  /** The dicts name listed slots and trails only, so the schedule and the links of the
      collections have an entry for each. */
  lemma {:induction false} CollectionsCovered(slots: TimeSlots, trails: Trails)
    requires slots.Valid() && trails.Valid()
    ensures Covered(LookupOf(slots, trails), ListsOf(slots.list), LinksOf(trails.list))
  {
  }

  /** `calendar(filespec, timeSlots, trails)` (tb_calendar.py:19-69) over the rows the csv
      reader yields; `header` is the sniffer's verdict, which numbers the first row line 2.
      The new schedule and links are those of `Passed`, the counters are its counters, and
      the outcome is the exception as it surfaces. */
  method Calendar(rows: seq<seq<string>>, header: bool, slots: TimeSlots, trails: Trails)
      returns (o: Outcome, events: nat, reported: seq<nat>)
    requires Schedulable(slots, trails)
    modifies set s | s in slots.list :: s.trails, set t | t in trails.list
    ensures Schedulable(slots, trails) && unchanged(slots, trails)
    ensures Covered(LookupOf(slots, trails), old(ListsOf(slots.list)), old(LinksOf(trails.list)))
    ensures var p := Passed(rows, if header then 2 else 1, LookupOf(slots, trails),
                            Progress(old(ListsOf(slots.list)), old(LinksOf(trails.list)), 0, [], Ok));
            && ListsOf(slots.list) == p.lists && LinksOf(trails.list) == p.links
            && events == p.events && reported == p.reported && o == Raised(p.failure)
  {
    var first := if header then 2 else 1;
    ghost var d := LookupOf(slots, trails);
    CollectionsCovered(slots, trails);
    ghost var p0 := Progress(ListsOf(slots.list), LinksOf(trails.list), 0, [], Ok);
    ghost var p := p0;
    var failure := Ok;
    events := 0;
    reported := [];
    var i := 0;
    assert rows[..0] == [];
    while i < |rows| && failure == Ok
      invariant 0 <= i <= |rows|
      invariant Schedulable(slots, trails) && unchanged(slots, trails)
      invariant p == Passed(rows[..i], first, d, p0)
      invariant Mirrors(p, slots, trails)
      invariant events == p.events && reported == p.reported && failure == p.failure
      invariant failure != Ok ==> Passed(rows, first, d, p0) == p
    {
      ghost var next := RowStep(rows[i], first + i, d, p);
      Advanced(rows, i, first, d, p0, p, next);
      var isReported, f := Step(rows[i], first + i, slots, trails, d, p, next);
      events := events + 1;
      if isReported {
        reported := reported + [first + i];
      }
      failure := f;
      p := next;
      i := i + 1;
    }
    if failure == Ok {
      assert rows[..i] == rows;
    }
    o := Raised(failure);
  }

  /** The record `p` holds the schedule and the links as the objects have them. */
  ghost predicate Mirrors(p: Progress, slots: TimeSlots, trails: Trails)
    reads slots, trails, set s | s in slots.list :: s.trails, set t | t in trails.list
  {
    p.lists == ListsOf(slots.list) && p.links == LinksOf(trails.list)
  }

  /** One turn of the loop: row `row` at line `line`, on the objects and on the record `p`
      of the pass so far, which becomes `q`. */
  method Step(row: seq<string>, line: nat, slots: TimeSlots, trails: Trails,
              ghost d: Lookup, ghost p: Progress, ghost q: Progress)
      returns (isReported: bool, failure: Outcome)
    requires Schedulable(slots, trails) && Mirrors(p, slots, trails)
    requires d == LookupOf(slots, trails) && Covered(d, p.lists, p.links)
    requires q == RowStep(row, line, d, p)
    modifies set s | s in slots.list :: s.trails, set t | t in trails.list
    ensures Schedulable(slots, trails) && unchanged(slots, trails)
    ensures Mirrors(q, slots, trails) && failure == q.failure
    ensures q.reported == if isReported then p.reported + [line] else p.reported
  {
    isReported, failure := Row(row, line, slots, trails, d, p.lists, p.links);
  }

  /** The rows up to `i + 1` are the rows up to `i` and then row `i`, when those did not raise. */
  lemma {:induction false} PassedSnoc(rows: seq<seq<string>>, i: nat, first: nat, d: Lookup, p: Progress)
    requires Covered(d, p.lists, p.links)
    requires i < |rows| && Passed(rows[..i], first, d, p).failure == Ok
    ensures Passed(rows[..i + 1], first, d, p) == RowStep(rows[i], first + i, d, Passed(rows[..i], first, d, p))
  {
    assert rows[..i + 1][..i] == rows[..i];
  }

  /** The record of the rows up to `i`, after row `i`, is the record of the rows up to
      `i + 1`, and the record of the whole pass once that row raised. */
  lemma {:induction false} Advanced(rows: seq<seq<string>>, i: nat, first: nat, d: Lookup, p0: Progress, p: Progress, q: Progress)
    requires Covered(d, p0.lists, p0.links)
    requires i < |rows| && p == Passed(rows[..i], first, d, p0) && p.failure == Ok
    requires q == RowStep(rows[i], first + i, d, p)
    ensures q == Passed(rows[..i + 1], first, d, p0)
    ensures q.failure != Ok ==> Passed(rows, first, d, p0) == q
  {
    PassedSnoc(rows, i, first, d, p0);
    if q.failure != Ok {
      StopsAtFailure(rows, first, d, p0, i);
    }
  }

  /** Once the rows up to `i` raised, the whole pass is theirs. */
  lemma {:induction false} StoppedHere(rows: seq<seq<string>>, i: nat, first: nat, d: Lookup, p: Progress)
    requires Covered(d, p.lists, p.links)
    requires i <= |rows| && Passed(rows[..i], first, d, p).failure != Ok
    ensures Passed(rows, first, d, p) == Passed(rows[..i], first, d, p)
    decreases |rows| - i
  {
    if i < |rows| {
      var n := |rows| - 1;
      assert rows[..n][..i] == rows[..i];
      StoppedHere(rows[..n], i, first, d, p);
      assert rows[..|rows|] == rows;
    } else {
      assert rows[..i] == rows;
    }
  }

  /** One row of the loop: what `RowEffect` says of it, on the objects themselves. */
  method Row(row: seq<string>, line: nat, slots: TimeSlots, trails: Trails,
             ghost d: Lookup, ghost lists: map<TimeSlot, seq<Trail>>, ghost links: map<Trail, TimeSlot?>)
      returns (isReported: bool, failure: Outcome)
    requires Schedulable(slots, trails)
    requires d == LookupOf(slots, trails) && lists == ListsOf(slots.list) && links == LinksOf(trails.list)
    requires Covered(d, lists, links)
    modifies set s | s in slots.list :: s.trails, set t | t in trails.list
    ensures Schedulable(slots, trails) && unchanged(slots, trails)
    ensures var e := RowEffect(row, line, d, lists, links);
            ListsOf(slots.list) == e.0 && LinksOf(trails.list) == e.1 && isReported == e.2 && failure == e.3
  {
    isReported := false;
    failure := Ok;
    if |row| == 0 {
      return;
    }
    var slot := slots.GetById(Strip(row[0]));
    if |row| == 1 {
      failure := IndexError;
      return;
    }
    var trail := trails.GetById(Strip(row[1]));
    if slot.None? || trail.None? {
      isReported := !(line == 1 && slot.None? && trail.None?);
      return;
    }
    failure := Schedule(slot.value, trail.value, slots, trails);
  }

  /** The two assignments of a resolved row, on the objects. */
  method Schedule(s: TimeSlot, t: Trail, slots: TimeSlots, trails: Trails) returns (failure: Outcome)
    requires Schedulable(slots, trails) && s in slots.list && t in trails.list
    modifies s.trails, t
    ensures Schedulable(slots, trails)
    ensures (ListsOf(slots.list), LinksOf(trails.list), failure)
            == Link(s, t, old(ListsOf(slots.list)), old(LinksOf(trails.list)))
  {
    failure := Enrol(s, t, slots, trails);
    if failure == Ok {
      failure := Point(s, t, slots, trails);
    }
  }

  /** `timeSlot.addTrail(trail)`, seen on the schedule of all slots and the links of all
      trails. */
  method Enrol(s: TimeSlot, t: Trail, slots: TimeSlots, trails: Trails) returns (o: Outcome)
    requires Schedulable(slots, trails) && s in slots.list
    modifies s.trails
    ensures Schedulable(slots, trails)
    ensures LinksOf(trails.list) == old(LinksOf(trails.list))
    ensures o == Ok || o == DuplicateError
    ensures o == Ok <==> !HasTrailId(old(ListsOf(slots.list))[s], t.id)
    ensures ListsOf(slots.list) == if o == Ok then old(ListsOf(slots.list))[s := old(ListsOf(slots.list))[s] + [t]] else old(ListsOf(slots.list))
  {
    o := Enlist(s, t, slots, trails);
  }

  /** `timeSlot.addTrail(trail)`, seen on the schedule of all slots. */
  method Enlist(s: TimeSlot, t: Trail, slots: TimeSlots, trails: Trails) returns (o: Outcome)
    requires Schedulable(slots, trails) && s in slots.list
    modifies s.trails
    ensures Schedulable(slots, trails)
    ensures o == Ok || o == DuplicateError
    ensures o == Ok <==> !HasTrailId(old(ListsOf(slots.list))[s], t.id)
    ensures ListsOf(slots.list) == if o == Ok then old(ListsOf(slots.list))[s := old(ListsOf(slots.list))[s] + [t]] else old(ListsOf(slots.list))
  {
    ghost var lists := ListsOf(slots.list);
    o := s.AddTrail(t);
    ghost var expected := if o == Ok then lists[s := lists[s] + [t]] else lists;
    ghost var now := ListsOf(slots.list);
    forall u | u in now ensures now[u] == expected[u] {
    }
    Allocation.SameMaps(now, expected);
  }

  /** `trail.timeSlot = timeSlot`, seen on the links of all trails. */
  method Point(s: TimeSlot, t: Trail, slots: TimeSlots, trails: Trails) returns (o: Outcome)
    requires Schedulable(slots, trails) && t in trails.list
    modifies t
    ensures Schedulable(slots, trails) && ListsOf(slots.list) == old(ListsOf(slots.list))
    ensures o == Ok || o == DuplicateError
    ensures o == Ok <==> old(LinksOf(trails.list))[t] == null
    ensures LinksOf(trails.list) == if o == Ok then old(LinksOf(trails.list))[t := s] else old(LinksOf(trails.list))
  {
    ghost var links := LinksOf(trails.list);
    o := t.SetTimeSlot(s);
  }
}
