// The test-data generator (generate.py) without its files: the rows of a hashers file, and
// the deterministic "pool" and "dribble" bid templates that every generated hasher bids
// from, one template per time slot, updated in place from hasher to hasher.

module Generate {
  import opened Text

  // ---- the hashers file ----

  const HashersHeader := "hasherID,hasherName\n"

  /** One line of the hashers file for `id` (generate.py:36-38). */
  function HasherLine(id: nat): string {
    Decimal(id) + ", " + Decimal(id) + ", Hasher " + ZeroPadded(id, 4) + "\n"
  }

  /** `generateHashers(hashers, ...)` (generate.py:19-39): the header, then ids 1..n. */
  method GenerateHashers(hashers: int) returns (lines: seq<string>)
    ensures |lines| == 1 + (if hashers < 0 then 0 else hashers)
    ensures lines[0] == HashersHeader
    ensures forall i :: 1 <= i < |lines| ==> lines[i] == HasherLine(i)
  {
    lines := [HashersHeader];
    var id := 1;
    while id <= hashers
      invariant 1 <= id <= (if hashers < 0 then 0 else hashers) + 1 && |lines| == id
      invariant lines[0] == HashersHeader
      invariant forall i :: 1 <= i < |lines| ==> lines[i] == HasherLine(i)
    {
      lines := lines + [HasherLine(id)];
      id := id + 1;
    }
  }

  /** `s.split(sep)` of a part without `sep`, the separator, and more text. */
  lemma {:induction false} SplitHead(a: string, sep: char, b: string)
    requires sep !in a
    ensures Split(a + [sep] + b, sep) == [a] + Split(b, sep)
  {
    var s := a + [sep] + b;
    if a == [] {
      assert s[1..] == b;
    } else {
      SplitHead(a[1..], sep, b);
      assert s[1..] == a[1..] + [sep] + b;
      assert [a[0]] + a[1..] == a;
    }
  }

  /** A space in front of a number changes nothing `int(...)` reads. */
  lemma {:induction false} LeadingSpace(d: string)
    ensures Strip(" " + d) == Strip(d)
  {
    assert (" " + d)[1..] == d;
  }

  /** Read back as CSV, a hashers line has three fields: the id, a sequence equal to the
      id, and the name "Hasher" with the id zero-padded to four digits. */
  lemma {:induction false} HasherLineFields(id: nat)
    ensures Split(HasherLine(id), ',') ==
      [Decimal(id), " " + Decimal(id), " Hasher " + ZeroPadded(id, 4) + "\n"]
    ensures IsIntLiteral(Split(HasherLine(id), ',')[0]) && IntValue(Split(HasherLine(id), ',')[0]) == id
    ensures IsIntLiteral(Split(HasherLine(id), ',')[1]) && IntValue(Split(HasherLine(id), ',')[1]) == id
  {
    HasherLineSplit(id);
    var d := Decimal(id);
    IntRoundTrip(id);
    assert IntText(id) == d;
    LeadingSpace(d);
    SameStripLiteral(d, " " + d);
  }

  /** Where a hashers line splits at its commas. */
  lemma {:induction false} HasherLineSplit(id: nat)
    ensures Split(HasherLine(id), ',') ==
      [Decimal(id), " " + Decimal(id), " Hasher " + ZeroPadded(id, 4) + "\n"]
  {
    var d := Decimal(id);
    NameWithoutComma(id);
    DigitsWithoutComma(d);
    HasherLineShape(id);
    SplitThree(d, " " + d, " Hasher " + ZeroPadded(id, 4) + "\n", ',');
  }

  /** A hashers line is its three fields joined by commas. */
  lemma {:induction false} HasherLineShape(id: nat)
    ensures HasherLine(id) ==
      Decimal(id) + [','] + (" " + Decimal(id)) + [','] + (" Hasher " + ZeroPadded(id, 4) + "\n")
  {
    var d, z := Decimal(id), ZeroPadded(id, 4);
    assert ", " == [','] + " " && ", Hasher " == [','] + " Hasher ";
    calc {
      HasherLine(id);
      d + ", " + d + ", Hasher " + z + "\n";
      d + ([','] + " ") + d + ([','] + " Hasher ") + z + "\n";
    }
  }

  /** Three parts without the separator, joined by it, split back into those parts. */
  lemma {:induction false} SplitThree(a: string, b: string, c: string, sep: char)
    requires sep !in a && sep !in b && sep !in c
    ensures Split(a + [sep] + b + [sep] + c, sep) == [a, b, c]
  {
    SplitWithout(c, sep);
    SplitHead(b, sep, c);
    assert a + [sep] + b + [sep] + c == a + [sep] + (b + [sep] + c);
    SplitHead(a, sep, b + [sep] + c);
  }

  lemma {:induction false} NameWithoutComma(id: nat)
    ensures ',' !in " Hasher " + ZeroPadded(id, 4) + "\n"
  {
    var z := ZeroPadded(id, 4);
    var name := " Hasher " + z + "\n";
    ZeroPaddedValue(id, 4);
    forall i | 0 <= i < |name| ensures name[i] != ',' {
      if 8 <= i < 8 + |z| { assert name[i] == z[i - 8]; }
    }
  }

  lemma {:induction false} DigitsWithoutComma(d: string)
    requires forall i :: 0 <= i < |d| ==> IsDigit(d[i])
    ensures ',' !in d && ',' !in " " + d
  {
    forall i | 0 <= i < |d| ensures d[i] != ',' { assert IsDigit(d[i]); }
    forall i | 0 <= i < |" " + d| ensures (" " + d)[i] != ',' {
      if i > 0 { assert (" " + d)[i] == d[i - 1]; }
    }
  }

  /** Whether text reads as a number, and which, depends only on the text once stripped. */
  lemma {:induction false} SameStripLiteral(s: string, t: string)
    requires Strip(s) == Strip(t) && IsIntLiteral(s)
    ensures IsIntLiteral(t) && IntValue(t) == IntValue(s)
  {
  }

  // ---- bid templates ----

  /** One line of a bids file: hasher id, trail id, bid amount (generate.py:70-72). */
  datatype Row = Row(hasher: int, trail: int, amount: int)

  /** The template has an entry for every trail id from `lo` to `hi`. */
  predicate Covers(b: map<int, int>, lo: int, hi: int) {
    forall k :: lo <= k <= hi ==> k in b
  }

  predicate NonNegative(b: map<int, int>, lo: int, hi: int)
    requires Covers(b, lo, hi)
  {
    forall k :: lo <= k <= hi ==> b[k] >= 0
  }

  /** The total of the template's entries from `lo` to `hi`. */
  function Total(b: map<int, int>, lo: int, hi: int): int
    requires Covers(b, lo, hi)
    decreases hi - lo
  {
    if hi < lo then 0 else Total(b, lo, hi - 1) + b[hi]
  }

  lemma {:induction false} TotalAgree(b: map<int, int>, c: map<int, int>, lo: int, hi: int)
    requires Covers(b, lo, hi) && Covers(c, lo, hi)
    requires forall k :: lo <= k <= hi ==> b[k] == c[k]
    ensures Total(b, lo, hi) == Total(c, lo, hi)
    decreases hi - lo
  {
    if lo <= hi {
      TotalAgree(b, c, lo, hi - 1);
    }
  }

  /** Changing one entry changes the total by the difference. */
  lemma {:induction false} TotalUpdate(b: map<int, int>, lo: int, hi: int, k: int, v: int)
    requires Covers(b, lo, hi) && lo <= k <= hi
    ensures Covers(b[k := v], lo, hi)
    ensures Total(b[k := v], lo, hi) == Total(b, lo, hi) - b[k] + v
    decreases hi - lo
  {
    if k < hi {
      TotalUpdate(b, lo, hi - 1, k, v);
    } else {
      TotalAgree(b, b[k := v], lo, hi - 1);
    }
  }

  lemma {:induction false} TotalZero(b: map<int, int>, lo: int, hi: int)
    requires Covers(b, lo, hi) && forall k :: lo <= k <= hi ==> b[k] == 0
    ensures Total(b, lo, hi) == 0
    decreases hi - lo
  {
    if lo <= hi {
      TotalZero(b, lo, hi - 1);
    }
  }

  /** The starting template (generate.py:53-55, 96-98): the whole allowance on the first
      trail, nothing on the others. */
  function Initial(lo: int, hi: int, allowance: int): (r: map<int, int>)
    ensures Covers(r, lo, hi)
    ensures forall k :: k in r ==> lo <= k <= hi && r[k] == if k == lo then allowance else 0
    decreases hi - lo
  {
    if hi < lo then map[] else Initial(lo, hi - 1, allowance)[hi := if hi == lo then allowance else 0]
  }

  lemma {:induction false} InitialTotal(lo: int, t: int, hi: int, allowance: int)
    requires t <= hi
    ensures Total(Initial(lo, hi, allowance), lo, t) == if lo <= t then allowance else 0
    decreases t - lo
  {
    if lo <= t {
      InitialTotal(lo, t - 1, hi, allowance);
    }
  }

  /** The initialising loop of both generators. */
  method Initialise(lo: int, hi: int, allowance: int) returns (bids: map<int, int>)
    ensures bids == Initial(lo, hi, allowance)
  {
    bids := map[];
    var t := lo;
    while t <= hi
      invariant lo <= t <= (if lo <= hi then hi + 1 else lo)
      invariant bids == Initial(lo, t - 1, allowance)
      decreases hi - t
    {
      bids := bids[t := if t == lo then allowance else 0];
      t := t + 1;
    }
  }

  /** The rows written for hasher `h` from the template's entries `lo..t`: one per non-zero
      entry, in trail order (generate.py:68-72, 107-111). */
  function Emitted(h: int, b: map<int, int>, lo: int, t: int): (r: seq<Row>)
    requires Covers(b, lo, t)
    ensures forall i :: 0 <= i < |r| ==>
      r[i].hasher == h && lo <= r[i].trail <= t && r[i].amount == b[r[i].trail] && r[i].amount != 0
    ensures forall i, j :: 0 <= i < j < |r| ==> r[i].trail < r[j].trail
    decreases t - lo
  {
    if t < lo then []
    else Emitted(h, b, lo, t - 1) + (if b[t] != 0 then [Row(h, t, b[t])] else [])
  }

  /** Conversely every non-zero entry of `lo..t` gets a row, at the position of its trail
      among the non-zero entries. */
  lemma {:induction false} EmittedComplete(h: int, b: map<int, int>, lo: int, t: int, k: int)
    requires Covers(b, lo, t) && lo <= k <= t && b[k] != 0
    ensures exists i :: 0 <= i < |Emitted(h, b, lo, t)| && Emitted(h, b, lo, t)[i] == Row(h, k, b[k])
    decreases t - lo
  {
    var e := Emitted(h, b, lo, t - 1);
    if k == t {
      assert Emitted(h, b, lo, t)[|e|] == Row(h, k, b[k]);
    } else {
      EmittedComplete(h, b, lo, t - 1, k);
      var i :| 0 <= i < |e| && e[i] == Row(h, k, b[k]);
      assert Emitted(h, b, lo, t)[i] == Row(h, k, b[k]);
    }
  }

  /** The total of the amounts of some rows. */
  function Amount(rows: seq<Row>): int {
    if rows == [] then 0 else Amount(rows[..|rows| - 1]) + rows[|rows| - 1].amount
  }

  /** Dropping the zero entries keeps the total: a hasher's rows add up to the template. */
  lemma {:induction false} EmittedTotal(h: int, b: map<int, int>, lo: int, t: int)
    requires Covers(b, lo, t)
    ensures Amount(Emitted(h, b, lo, t)) == Total(b, lo, t)
    decreases t - lo
  {
    if lo <= t {
      EmittedTotal(h, b, lo, t - 1);
      var e := Emitted(h, b, lo, t - 1);
      if b[t] != 0 {
        assert (e + [Row(h, t, b[t])])[..|e|] == e;
      } else {
        assert e + [] == e;
      }
    }
  }

  /** The writing loop of both generators for one hasher. */
  method Emit(h: int, bids: map<int, int>, lo: int, hi: int) returns (rows: seq<Row>)
    requires Covers(bids, lo, hi)
    ensures rows == Emitted(h, bids, lo, hi)
  {
    rows := [];
    var t := lo;
    while t <= hi
      invariant lo <= t <= (if lo <= hi then hi + 1 else lo)
      invariant rows == Emitted(h, bids, lo, t - 1)
      decreases hi - t
    {
      if bids[t] != 0 {
        rows := rows + [Row(h, t, bids[t])];
      }
      t := t + 1;
    }
  }

  // ---- pool ----

  /** One shift of the pool template at trail `t` (generate.py:103-105). */
  function PoolShift(b: map<int, int>, t: int): (r: map<int, int>)
    requires t in b && t + 1 in b
    ensures r.Keys == b.Keys
  {
    if b[t] >= b[t + 1] + 2 then b[t := b[t] - 1][t + 1 := b[t + 1] + 1] else b
  }

  /** A shift moves exactly one unit from `t` to `t + 1`, and only when `t` holds at least
      two more; it keeps the total and keeps the entries non-negative. */
  lemma {:induction false} PoolShiftKeeps(b: map<int, int>, lo: int, hi: int, t: int)
    requires Covers(b, lo, hi) && lo <= t < hi
    ensures Covers(PoolShift(b, t), lo, hi)
    ensures b[t] >= b[t + 1] + 2 ==>
      PoolShift(b, t)[t] == b[t] - 1 && PoolShift(b, t)[t + 1] == b[t + 1] + 1
    ensures b[t] < b[t + 1] + 2 ==> PoolShift(b, t) == b
    ensures forall k :: k in b && k != t && k != t + 1 ==> PoolShift(b, t)[k] == b[k]
    ensures Total(PoolShift(b, t), lo, hi) == Total(b, lo, hi)
    ensures NonNegative(b, lo, hi) ==> NonNegative(PoolShift(b, t), lo, hi)
  {
    if b[t] >= b[t + 1] + 2 {
      var c := b[t := b[t] - 1];
      TotalUpdate(b, lo, hi, t, b[t] - 1);
      TotalUpdate(c, lo, hi, t + 1, b[t + 1] + 1);
    }
  }

  /** The shifts of one hasher at trails `lo .. t - 1`, in that order (generate.py:101-105). */
  function PoolPass(b: map<int, int>, lo: int, t: int): (r: map<int, int>)
    requires t <= lo || Covers(b, lo, t)
    ensures r.Keys == b.Keys
    decreases t - lo
  {
    if t <= lo then b else PoolShift(PoolPass(b, lo, t - 1), t - 1)
  }

  lemma {:induction false} PoolPassKeeps(b: map<int, int>, lo: int, t: int, hi: int)
    requires Covers(b, lo, hi) && t <= hi
    ensures Total(PoolPass(b, lo, t), lo, hi) == Total(b, lo, hi)
    ensures NonNegative(b, lo, hi) ==> NonNegative(PoolPass(b, lo, t), lo, hi)
    decreases t - lo
  {
    if t > lo {
      PoolPassKeeps(b, lo, t - 1, hi);
      PoolShiftKeeps(PoolPass(b, lo, t - 1), lo, hi, t - 1);
    }
  }

  /** The pool template after `h` hashers. */
  function PoolTemplate(lo: int, hi: int, allowance: int, h: nat): (r: map<int, int>)
    ensures r.Keys == Initial(lo, hi, allowance).Keys && Covers(r, lo, hi)
  {
    if h == 0 then Initial(lo, hi, allowance) else PoolPass(PoolTemplate(lo, hi, allowance, h - 1), lo, hi)
  }

  /** The pool template always holds exactly the allowance, and never a negative bid when
      the allowance is not negative. */
  lemma {:induction false} PoolTemplateKeeps(lo: int, hi: int, allowance: int, h: nat)
    requires lo <= hi
    ensures Total(PoolTemplate(lo, hi, allowance, h), lo, hi) == allowance
    ensures allowance >= 0 ==> NonNegative(PoolTemplate(lo, hi, allowance, h), lo, hi)
  {
    if h == 0 {
      InitialTotal(lo, hi, hi, allowance);
    } else {
      PoolTemplateKeeps(lo, hi, allowance, h - 1);
      PoolPassKeeps(PoolTemplate(lo, hi, allowance, h - 1), lo, hi, hi);
    }
  }

  /** The shifting loop of `generateBids_pool` for one hasher. */
  method Pool(bids: map<int, int>, lo: int, hi: int) returns (r: map<int, int>)
    requires Covers(bids, lo, hi)
    ensures r == PoolPass(bids, lo, hi)
  {
    r := bids;
    var t := lo;
    while t < hi
      invariant lo <= t <= (if lo <= hi then hi else lo)
      invariant r == PoolPass(bids, lo, t)
      decreases hi - t
    {
      if r[t] >= r[t + 1] + 2 {
        r := r[t := r[t] - 1];
        r := r[t + 1 := r[t + 1] + 1];
      }
      t := t + 1;
    }
  }

  /** Block `h` of `written` holds hasher `h + 1`'s rows from the pool template after its
      shifts. */
  predicate PoolWritten(written: seq<seq<Row>>, lo: int, hi: int, allowance: int) {
    forall h :: 0 <= h < |written| ==> written[h] == Emitted(h + 1, PoolTemplate(lo, hi, allowance, h + 1), lo, hi)
  }

  /** `generateBids_pool(hashers, trailMin, trailMax, allowance, ...)` (generate.py:86-120):
      the rows written, one block per hasher. Every hasher's amounts add up to the
      allowance, and none is zero or, with a non-negative allowance, negative. */
  method GeneratePool(hashers: int, trailMin: int, trailMax: int, allowance: int)
      returns (written: seq<seq<Row>>)
    ensures |written| == if hashers < 0 then 0 else hashers
    ensures forall h :: 0 <= h < |written| ==>
      written[h] == Emitted(h + 1, PoolTemplate(trailMin, trailMax, allowance, h + 1), trailMin, trailMax)
    ensures trailMin <= trailMax ==> forall h :: 0 <= h < |written| ==> Amount(written[h]) == allowance
    ensures allowance >= 0 ==> forall h, i :: 0 <= h < |written| && 0 <= i < |written[h]| ==> written[h][i].amount > 0
  {
    written := PoolRows(hashers, trailMin, trailMax, allowance);
    forall h | 0 <= h < |written|
      ensures trailMin <= trailMax ==> Amount(written[h]) == allowance
      ensures allowance >= 0 ==> forall i :: 0 <= i < |written[h]| ==> written[h][i].amount > 0
    {
      Shaped(trailMin, trailMax, allowance, h + 1, written[h]);
    }
  }

  /** The hasher loop of `generateBids_pool`. */
  method PoolRows(hashers: int, trailMin: int, trailMax: int, allowance: int)
      returns (written: seq<seq<Row>>)
    ensures |written| == if hashers < 0 then 0 else hashers
    ensures PoolWritten(written, trailMin, trailMax, allowance)
  {
    var bids := Initialise(trailMin, trailMax, allowance);
    written := [];
    var hasherId := 1;
    while hasherId <= hashers
      invariant 1 <= hasherId <= (if hashers < 0 then 0 else hashers) + 1 && |written| == hasherId - 1
      invariant bids == PoolTemplate(trailMin, trailMax, allowance, hasherId - 1)
      invariant PoolWritten(written, trailMin, trailMax, allowance)
    {
      bids := Pool(bids, trailMin, trailMax);
      var rows := Emit(hasherId, bids, trailMin, trailMax);
      written := written + [rows];
      hasherId := hasherId + 1;
    }
  }

  /** What one hasher's block of the pool carries. */
  lemma {:induction false} Shaped(lo: int, hi: int, allowance: int, h: nat, rows: seq<Row>)
    requires rows == Emitted(h, PoolTemplate(lo, hi, allowance, h), lo, hi)
    ensures lo <= hi ==> Amount(rows) == allowance
    ensures allowance >= 0 ==> forall i :: 0 <= i < |rows| ==> rows[i].amount > 0
  {
    EmittedTotal(h, PoolTemplate(lo, hi, allowance, h), lo, hi);
    if lo <= hi {
      PoolTemplateKeeps(lo, hi, allowance, h);
    }
  }

  // ---- dribble ----

  /** The template and the lowest trail still being drawn from, or the `KeyError` the
      source raises when a trail id outside the template is used. */
  datatype Sweep = Sweep(bids: map<int, int>, spanMin: int) | Missing

  /** One step of the dribble loop at trail `t` (generate.py:62-66): when the lowest trail
      is empty the next one becomes the lowest and is also the target; then one unit is
      drawn from the lowest and added to the target. */
  function DribbleStep(b: map<int, int>, spanMin: int, t: int): (r: Sweep)
    ensures r.Sweep? ==> r.bids.Keys == b.Keys
  {
    if spanMin !in b then Missing
    else
      var moved := b[spanMin] == 0;
      var low := if moved then spanMin + 1 else spanMin;
      var target := if moved then low else t;
      if low !in b then Missing
      else
        var drawn := b[low := b[low] - 1];
        if target !in drawn then Missing
        else Sweep(drawn[target := drawn[target] + 1], low)
  }

  /** The steps of one hasher at trails `lo .. t - 1`, starting from `spanMin = lo`
      (generate.py:59-66). */
  function DribbleSweep(b: map<int, int>, lo: int, t: int): (r: Sweep)
    ensures r.Sweep? ==> r.bids.Keys == b.Keys
    decreases t - lo
  {
    if t <= lo then Sweep(b, lo)
    else
      var s := DribbleSweep(b, lo, t - 1);
      if s.Missing? then Missing else DribbleStep(s.bids, s.spanMin, t - 1)
  }

  /** `span` for hasher `h`: 0 for the first hasher, then one more, back to 0 after
      `n - 1` for `n` trails (generate.py:57, 81). */
  function Span(h: nat, n: int): (r: int)
    requires n >= 1
    ensures 0 <= r < n
  {
    if h <= 1 then 0 else if Span(h - 1, n) + 1 == n then 0 else Span(h - 1, n) + 1
  }

  /** The source's `(span + 1) % n` is that step. */
  lemma {:induction false} SpanStep(h: nat, n: int)
    requires n >= 1 && h >= 1
    ensures Span(h + 1, n) == (Span(h, n) + 1) % n
  {
  }

  /** The first `n` hashers get spans 0 .. n - 1, and from then on the spans repeat with
      period `n`. */
  lemma {:induction false} SpanCycles(h: nat, n: int)
    requires n >= 1 && h >= 1
    ensures h <= n ==> Span(h, n) == h - 1
    ensures Span(h + n, n) == Span(h, n)
    decreases h
  {
    if h > 1 {
      SpanCycles(h - 1, n);
    } else {
      SpanFirst(n, n);
    }
  }

  lemma {:induction false} SpanFirst(h: nat, n: int)
    requires 1 <= h <= n
    ensures Span(h, n) == h - 1
  {
    if h > 1 {
      SpanFirst(h - 1, n);
    }
  }

  /** The dribble template after `h` hashers, or `None` once a step raised. */
  function DribbleTemplate(lo: int, hi: int, allowance: int, h: nat): (r: Option<map<int, int>>)
    requires lo <= hi
    ensures r.Some? ==> r.value.Keys == Initial(lo, hi, allowance).Keys && Covers(r.value, lo, hi)
  {
    if h == 0 then Some(Initial(lo, hi, allowance))
    else
      var before := DribbleTemplate(lo, hi, allowance, h - 1);
      if before.None? then None else Swap(before.value, lo, Span(h, hi - lo + 1))
  }

  /** One hasher's sweep over the template `b`, trails `lo` to `lo + span`; `None` where
      the source raises `KeyError`. */
  function Swap(b: map<int, int>, lo: int, span: int): (r: Option<map<int, int>>)
    ensures r.Some? ==> r.value.Keys == b.Keys
  {
    var s := DribbleSweep(b, lo, lo + span + 1);
    if s.Missing? then None else Some(s.bids)
  }

  /** What a dribble sweep keeps: the entries below the lowest trail are empty, the total
      is unchanged, no entry is negative, and the lowest trail never passes the target. */
  predicate Swept(s: Sweep, lo: int, hi: int, t: int, total: int) {
    && s.Sweep?
    && Covers(s.bids, lo, hi)
    && lo <= s.spanMin <= t && s.spanMin <= hi
    && (forall k :: lo <= k < s.spanMin ==> s.bids[k] == 0)
    && NonNegative(s.bids, lo, hi)
    && Total(s.bids, lo, hi) == total
  }

  /** A dribble step keeps the sweep's invariant as long as something is left to draw. */
  lemma {:induction false} DribbleStepKeeps(s: Sweep, lo: int, hi: int, t: int, total: int)
    requires total > 0 && lo <= t <= hi && Swept(s, lo, hi, t, total)
    ensures Swept(DribbleStep(s.bids, s.spanMin, t), lo, hi, t + 1, total)
  {
    var c, m := s.bids, s.spanMin;
    if c[m] == 0 {
      if m == hi {
        TotalZero(c, lo, hi);
      }
      assert m + 1 <= hi;
      var drawn := c[m + 1 := c[m + 1] - 1];
      assert drawn[m + 1 := drawn[m + 1] + 1] == c;
    } else {
      var drawn := c[m := c[m] - 1];
      TotalUpdate(c, lo, hi, m, c[m] - 1);
      TotalUpdate(drawn, lo, hi, t, drawn[t] + 1);
    }
  }

  lemma {:induction false} DribbleSweepKeeps(b: map<int, int>, lo: int, hi: int, t: int)
    requires Covers(b, lo, hi) && NonNegative(b, lo, hi) && Total(b, lo, hi) > 0
    requires lo <= t <= hi + 1
    ensures Swept(DribbleSweep(b, lo, t), lo, hi, t, Total(b, lo, hi))
    decreases t - lo
  {
    if t > lo {
      DribbleSweepKeeps(b, lo, hi, t - 1);
      var s := DribbleSweep(b, lo, t - 1);
      DribbleStepKeeps(s, lo, hi, t - 1, Total(b, lo, hi));
      assert DribbleSweep(b, lo, t) == DribbleStep(s.bids, s.spanMin, t - 1);
    }
  }

  /** With a positive allowance the dribble never raises, its template always holds
      exactly the allowance, and no bid goes negative. */
  lemma {:induction false} DribbleTemplateKeeps(lo: int, hi: int, allowance: int, h: nat)
    requires lo <= hi && allowance > 0
    ensures DribbleTemplate(lo, hi, allowance, h).Some?
    ensures Covers(DribbleTemplate(lo, hi, allowance, h).value, lo, hi)
    ensures Total(DribbleTemplate(lo, hi, allowance, h).value, lo, hi) == allowance
    ensures NonNegative(DribbleTemplate(lo, hi, allowance, h).value, lo, hi)
  {
    if h == 0 {
      InitialTotal(lo, hi, hi, allowance);
    } else {
      DribbleTemplateKeeps(lo, hi, allowance, h - 1);
      var b := DribbleTemplate(lo, hi, allowance, h - 1).value;
      var span := Span(h, hi - lo + 1);
      DribbleTemplateNext(lo, hi, allowance, h, b, span);
      SwapKeeps(b, lo, hi, span, allowance);
    }
  }

  /** One hasher's sweep over a template holding a positive allowance completes, and the
      template still covers the trails, holds the allowance and has no negative bid. */
  lemma {:induction false} SwapKeeps(b: map<int, int>, lo: int, hi: int, span: int, allowance: int)
    requires Covers(b, lo, hi) && NonNegative(b, lo, hi) && Total(b, lo, hi) == allowance && allowance > 0
    requires 0 <= span <= hi - lo
    ensures Swap(b, lo, span).Some?
    ensures Covers(Swap(b, lo, span).value, lo, hi)
    ensures Total(Swap(b, lo, span).value, lo, hi) == allowance
    ensures NonNegative(Swap(b, lo, span).value, lo, hi)
  {
    DribbleSweepKeeps(b, lo, hi, lo + span + 1);
    SwapCases(b, lo, span);
  }

  /** The template after hasher `h` is the previous one swept up to its span's trail. */
  lemma {:induction false} DribbleTemplateNext(lo: int, hi: int, allowance: int, h: nat, b: map<int, int>, span: int)
    requires lo <= hi && h > 0 && DribbleTemplate(lo, hi, allowance, h - 1) == Some(b)
    requires span == Span(h, hi - lo + 1)
    ensures DribbleTemplate(lo, hi, allowance, h) == Swap(b, lo, span)
  {
    DribbleTemplateUnfold(lo, hi, allowance, h);
  }

  lemma {:induction false} DribbleTemplateUnfold(lo: int, hi: int, allowance: int, h: nat)
    requires lo <= hi && h > 0
    ensures DribbleTemplate(lo, hi, allowance, h) ==
      var before := DribbleTemplate(lo, hi, allowance, h - 1);
      if before.None? then None else Swap(before.value, lo, Span(h, hi - lo + 1))
  {
  }

  /** A sweep that raises leaves no template; one that completes leaves its bids. */
  lemma {:induction false} SwapCases(b: map<int, int>, lo: int, span: int)
    ensures DribbleSweep(b, lo, lo + span + 1).Sweep? ==> Swap(b, lo, span) == Some(DribbleSweep(b, lo, lo + span + 1).bids)
    ensures DribbleSweep(b, lo, lo + span + 1).Missing? ==> Swap(b, lo, span) == None
  {
  }

  /** With no allowance to hand out, the third hasher of a three-trail slot walks the
      lowest trail past the last one, and the source raises `KeyError`. */
  lemma {:induction false} EmptyAllowanceRaises()
    ensures DribbleTemplate(1, 3, 0, 2).Some?
    ensures DribbleTemplate(1, 3, 0, 3).None?
  {
    var b0 := Initial(1, 3, 0);
    assert b0 == map[1 := 0, 2 := 0, 3 := 0];
    assert DribbleSweep(b0, 1, 2) == Sweep(b0, 2);
    assert DribbleTemplate(1, 3, 0, 1) == Some(b0);
    assert DribbleSweep(b0, 1, 3) == Sweep(b0, 3);
    assert DribbleTemplate(1, 3, 0, 2) == Some(b0);
    assert DribbleSweep(b0, 1, 3) == Sweep(b0, 3);
    assert DribbleSweep(b0, 1, 4) == Missing;
  }

  /** The shifting loop of `generateBids_dribble` for one hasher with the given `span`. */
  method Dribble(bids: map<int, int>, lo: int, span: int) returns (r: map<int, int>, ok: bool)
    requires span >= 0
    ensures ok <==> Swap(bids, lo, span).Some?
    ensures ok ==> Swap(bids, lo, span) == Some(r)
  {
    SwapCases(bids, lo, span);
    r := bids;
    var spanMin := lo;
    var t := lo;
    var u := lo + span + 1;
    while t < u
      invariant lo <= t <= u
      invariant DribbleSweep(bids, lo, t) == Sweep(r, spanMin)
    {
      var moved;
      SweepStep(bids, lo, t, r, spanMin);
      r, spanMin, moved := DribbleOnce(r, spanMin, t);
      if !moved {
        assert DribbleSweep(bids, lo, t + 1).Missing?;
        Stuck(bids, lo, t, u);
        return r, false;
      }
      t := t + 1;
    }
    ok := true;
  }

  lemma {:induction false} SweepStep(b: map<int, int>, lo: int, t: int, c: map<int, int>, m: int)
    requires lo <= t && DribbleSweep(b, lo, t) == Sweep(c, m)
    ensures DribbleSweep(b, lo, t + 1) == DribbleStep(c, m, t)
  {
  }

  /** One pass of the dribble loop at trail `t` (generate.py:62-66): when the lowest trail
      is empty the next one becomes the lowest and is also the target, so the unit drawn
      from it goes straight back; otherwise one unit moves from the lowest to trail `t`. */
  method DribbleOnce(b: map<int, int>, spanMin: int, t: int) returns (r: map<int, int>, low: int, ok: bool)
    ensures ok <==> DribbleStep(b, spanMin, t).Sweep?
    ensures ok ==> DribbleStep(b, spanMin, t) == Sweep(r, low)
  {
    r, low := b, spanMin;
    if low !in r {
      return r, low, false;
    }
    var target := t;
    if r[low] == 0 {
      low := low + 1;
      target := low;
    }
    if low !in r {
      return r, low, false;
    }
    r := r[low := r[low] - 1];
    if target !in r {
      return r, low, false;
    }
    r := r[target := r[target] + 1];
    ok := true;
  }

  /** Once a sweep raised, every longer sweep has raised too. */
  lemma {:induction false} Stuck(b: map<int, int>, lo: int, t: int, u: int)
    requires lo <= t < u && DribbleSweep(b, lo, t + 1).Missing?
    ensures DribbleSweep(b, lo, u).Missing?
    decreases u - t
  {
    if u > t + 1 {
      Stuck(b, lo, t, u - 1);
    }
  }

  /** The rows of block `h`, hasher `h + 1`'s, from the dribble template after its sweep,
      or `None` if the sweep raised. */
  function DribbleBlock(lo: int, hi: int, allowance: int, h: nat): Option<seq<Row>>
    requires lo <= hi
  {
    var b := DribbleTemplate(lo, hi, allowance, h + 1);
    if b.Some? then Some(Emitted(h + 1, b.value, lo, hi)) else None
  }

  predicate DribbleWritten(written: seq<seq<Row>>, lo: int, hi: int, allowance: int)
    requires lo <= hi
  {
    forall h :: 0 <= h < |written| ==> DribbleBlock(lo, hi, allowance, h) == Some(written[h])
  }

  /** `generateBids_dribble(hashers, trailMin, trailMax, allowance, ...)`
      (generate.py:43-82): the rows written, one block per hasher, and whether it finished
      without raising. Each block is the hasher's rows from the template after its sweep;
      with a positive allowance it always finishes, every block's amounts add up to the
      allowance, and all are positive. */
  method GenerateDribble(hashers: int, trailMin: int, trailMax: int, allowance: int)
      returns (written: seq<seq<Row>>, completed: bool)
    ensures trailMin > trailMax ==> written == [] && (completed <==> hashers < 1)
    ensures trailMin <= trailMax && completed ==> |written| == if hashers < 0 then 0 else hashers
    ensures trailMin <= trailMax && !completed ==>
      |written| < hashers && DribbleTemplate(trailMin, trailMax, allowance, |written| + 1).None?
    ensures trailMin <= trailMax ==> forall h :: 0 <= h < |written| ==>
      DribbleBlock(trailMin, trailMax, allowance, h) == Some(written[h])
    ensures trailMin <= trailMax && allowance > 0 ==>
      && completed
      && (forall h :: 0 <= h < |written| ==> Amount(written[h]) == allowance)
      && (forall h, i :: 0 <= h < |written| && 0 <= i < |written[h]| ==> written[h][i].amount > 0)
  {
    if trailMin > trailMax {
      written := [];
      completed := hashers < 1;
      return;
    }
    written, completed := DribbleRows(hashers, trailMin, trailMax, allowance);
    if allowance > 0 {
      if !completed {
        DribbleTemplateKeeps(trailMin, trailMax, allowance, |written| + 1);
      }
      forall h | 0 <= h < |written|
        ensures Amount(written[h]) == allowance
        ensures forall i :: 0 <= i < |written[h]| ==> written[h][i].amount > 0
      {
        Dribbled(trailMin, trailMax, allowance, h, written[h]);
      }
    }
  }

  /** The hasher loop of `generateBids_dribble` over a non-empty range of trails. */
  method DribbleRows(hashers: int, trailMin: int, trailMax: int, allowance: int)
      returns (written: seq<seq<Row>>, completed: bool)
    requires trailMin <= trailMax
    ensures completed ==> |written| == if hashers < 0 then 0 else hashers
    ensures !completed ==>
      |written| < hashers && DribbleTemplate(trailMin, trailMax, allowance, |written| + 1).None?
    ensures DribbleWritten(written, trailMin, trailMax, allowance)
  {
    written := [];
    var bids := Initialise(trailMin, trailMax, allowance);
    var span := 0;
    var hasherId := 1;
    while hasherId <= hashers
      invariant 1 <= hasherId <= (if hashers < 0 then 0 else hashers) + 1 && |written| == hasherId - 1
      invariant span == Span(hasherId, trailMax - trailMin + 1)
      invariant DribbleTemplate(trailMin, trailMax, allowance, hasherId - 1) == Some(bids)
      invariant DribbleWritten(written, trailMin, trailMax, allowance)
    {
      var next, rows, ok := DribbleHasher(hasherId, trailMin, trailMax, allowance, bids, span);
      if !ok {
        assert |written| + 1 == hasherId;
        assert DribbleTemplate(trailMin, trailMax, allowance, |written| + 1).None?;
        completed := false;
        return;
      }
      bids := next;
      DribbleWrittenSnoc(written, trailMin, trailMax, allowance, rows);
      written := written + [rows];
      SpanStep(hasherId, trailMax - trailMin + 1);
      span := (span + 1) % (trailMax - trailMin + 1);
      hasherId := hasherId + 1;
    }
    completed := true;
  }

  /** One hasher of `generateBids_dribble`: its sweep, then its rows. */
  method DribbleHasher(hasherId: nat, lo: int, hi: int, allowance: int, bids: map<int, int>, span: int)
      returns (next: map<int, int>, rows: seq<Row>, ok: bool)
    requires lo <= hi && hasherId >= 1
    requires DribbleTemplate(lo, hi, allowance, hasherId - 1) == Some(bids)
    requires span == Span(hasherId, hi - lo + 1)
    ensures ok ==> DribbleTemplate(lo, hi, allowance, hasherId) == Some(next)
    ensures ok ==> DribbleBlock(lo, hi, allowance, hasherId - 1) == Some(rows)
    ensures !ok ==> DribbleTemplate(lo, hi, allowance, hasherId).None?
  {
    next, ok := Dribble(bids, lo, span);
    DribbleNext(lo, hi, allowance, hasherId, bids, span, next, ok);
    if ok {
      rows := Emit(hasherId, next, lo, hi);
    } else {
      rows := [];
    }
  }

  /** One more hasher's sweep gives the next dribble template, or its `KeyError`. */
  lemma {:induction false} DribbleNext(lo: int, hi: int, allowance: int, h: nat, b: map<int, int>, span: int, next: map<int, int>, ok: bool)
    requires lo <= hi && h >= 1 && DribbleTemplate(lo, hi, allowance, h - 1) == Some(b)
    requires span == Span(h, hi - lo + 1)
    requires ok <==> Swap(b, lo, span).Some?
    requires ok ==> Swap(b, lo, span) == Some(next)
    ensures ok ==> DribbleTemplate(lo, hi, allowance, h) == Some(next)
    ensures !ok ==> DribbleTemplate(lo, hi, allowance, h).None?
  {
    DribbleTemplateNext(lo, hi, allowance, h, b, span);
  }

  lemma {:induction false} DribbleWrittenSnoc(written: seq<seq<Row>>, lo: int, hi: int, allowance: int, rows: seq<Row>)
    requires lo <= hi && DribbleWritten(written, lo, hi, allowance)
    requires DribbleBlock(lo, hi, allowance, |written|) == Some(rows)
    ensures DribbleWritten(written + [rows], lo, hi, allowance)
  {
    var w := written + [rows];
    forall h | 0 <= h < |w|
      ensures DribbleBlock(lo, hi, allowance, h) == Some(w[h])
    {
      if h < |written| {
        assert w[h] == written[h];
      }
    }
  }

  /** What one hasher's block of the dribble carries. */
  lemma {:induction false} Dribbled(lo: int, hi: int, allowance: int, h: nat, rows: seq<Row>)
    requires lo <= hi && DribbleBlock(lo, hi, allowance, h) == Some(rows)
    ensures allowance > 0 ==> Amount(rows) == allowance
    ensures allowance > 0 ==> forall i :: 0 <= i < |rows| ==> rows[i].amount > 0
  {
    if allowance > 0 {
      DribbleTemplateKeeps(lo, hi, allowance, h + 1);
      EmittedTotal(h + 1, DribbleTemplate(lo, hi, allowance, h + 1).value, lo, hi);
    }
  }
}
