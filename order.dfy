/** Ordering as the Python code uses it: tuple sort keys compared element by element,
    the stable `list.sort(key=...)`, and `random.shuffle` fed by a stream of draws. */
module Order {

  /** One element of a sort-key tuple: the keys in the program hold ints and strs. */
  datatype Atom = Num(n: int) | Txt(s: string)

  /** A sort-key tuple. */
  type Key = seq<Atom>

  /** Python's `str < str`: code point by code point, a proper prefix first. */
  predicate StrLess(a: string, b: string) {
    if |a| == 0 then |b| > 0
    else if |b| == 0 then false
    else if a[0] == b[0] then StrLess(a[1..], b[1..])
    else a[0] < b[0]
  }

  /** Comparison of two tuple elements. The keys built by one key function hold the same
      kind of element at each position; `Num` before `Txt` only makes the order total. */
  predicate AtomLess(x: Atom, y: Atom) {
    match (x, y)
    case (Num(a), Num(b)) => a < b
    case (Txt(a), Txt(b)) => StrLess(a, b)
    case (Num(_), Txt(_)) => true
    case (Txt(_), Num(_)) => false
  }

  /** Python's tuple `<`: the first position where the tuples differ decides, and a proper
      prefix comes first. */
  predicate KeyLess(a: Key, b: Key) {
    if |a| == 0 then |b| > 0
    else if |b| == 0 then false
    else if a[0] == b[0] then KeyLess(a[1..], b[1..])
    else AtomLess(a[0], b[0])
  }

  lemma {:induction false} StrLessIrreflexive(a: string)
    ensures !StrLess(a, a)
  {
    if |a| > 0 { StrLessIrreflexive(a[1..]); }
  }

  lemma {:induction false} StrLessTransitive(a: string, b: string, c: string)
    requires StrLess(a, b) && StrLess(b, c)
    ensures StrLess(a, c)
  {
    if |a| > 0 && a[0] == b[0] && b[0] == c[0] {
      StrLessTransitive(a[1..], b[1..], c[1..]);
    }
  }

  lemma {:induction false} StrLessTotal(a: string, b: string)
    requires a != b
    ensures StrLess(a, b) || StrLess(b, a)
  {
    if |a| > 0 && |b| > 0 && a[0] == b[0] {
      assert a == [a[0]] + a[1..] && b == [b[0]] + b[1..];
      StrLessTotal(a[1..], b[1..]);
    }
  }

  lemma {:induction false} AtomLessIrreflexive(x: Atom)
    ensures !AtomLess(x, x)
  {
    if x.Txt? { StrLessIrreflexive(x.s); }
  }

  lemma {:induction false} AtomLessTransitive(x: Atom, y: Atom, z: Atom)
    requires AtomLess(x, y) && AtomLess(y, z)
    ensures AtomLess(x, z)
  {
    if x.Txt? && y.Txt? && z.Txt? { StrLessTransitive(x.s, y.s, z.s); }
  }

  lemma {:induction false} AtomLessTotal(x: Atom, y: Atom)
    requires x != y
    ensures AtomLess(x, y) || AtomLess(y, x)
  {
    if x.Txt? && y.Txt? { StrLessTotal(x.s, y.s); }
  }

  /** Tuple comparison is a strict total order, so sorting by it is well defined. */
  lemma {:induction false} KeyLessIrreflexive(a: Key)
    ensures !KeyLess(a, a)
  {
    if |a| > 0 { KeyLessIrreflexive(a[1..]); }
  }

  lemma {:induction false} KeyLessTransitive(a: Key, b: Key, c: Key)
    requires KeyLess(a, b) && KeyLess(b, c)
    ensures KeyLess(a, c)
  {
    if |a| > 0 && |b| > 0 && |c| > 0 {
      if a[0] == b[0] && b[0] == c[0] {
        KeyLessTransitive(a[1..], b[1..], c[1..]);
      } else if a[0] != b[0] && b[0] != c[0] {
        AtomLessTransitive(a[0], b[0], c[0]);
        if a[0] == c[0] { AtomLessIrreflexive(a[0]); }
      }
    }
  }

  lemma {:induction false} KeyLessTotal(a: Key, b: Key)
    requires a != b
    ensures KeyLess(a, b) || KeyLess(b, a)
  {
    if |a| > 0 && |b| > 0 {
      if a[0] == b[0] {
        assert a == [a[0]] + a[1..] && b == [b[0]] + b[1..];
        KeyLessTotal(a[1..], b[1..]);
      } else {
        AtomLessTotal(a[0], b[0]);
      }
    }
  }

  /** Two keys whose first elements are numbers `m < n` compare as `m < n` do. */
  lemma {:induction false} FirstNumberDecides(a: Key, b: Key)
    requires |a| > 0 && |b| > 0 && a[0].Num? && b[0].Num? && a[0].n < b[0].n
    ensures KeyLess(a, b) && !KeyLess(b, a)
  {
  }

  // ---- stable sort by key ----

  /** An element paired with its sort key. */
  datatype Keyed<T> = Keyed(key: Key, item: T)

  function Items<T>(s: seq<Keyed<T>>): (r: seq<T>)
    ensures |r| == |s| && forall i :: 0 <= i < |s| ==> r[i] == s[i].item
  {
    if s == [] then [] else [s[0].item] + Items(s[1..])
  }

  function Keys<T>(s: seq<Keyed<T>>): (r: seq<Key>)
    ensures |r| == |s| && forall i :: 0 <= i < |s| ==> r[i] == s[i].key
  {
    if s == [] then [] else [s[0].key] + Keys(s[1..])
  }

  /** Pair each item with the key at the same position. */
  function Zip<T>(keys: seq<Key>, items: seq<T>): (r: seq<Keyed<T>>)
    requires |keys| == |items|
    ensures |r| == |items|
    ensures forall i :: 0 <= i < |r| ==> r[i] == Keyed(keys[i], items[i])
  {
    if items == [] then [] else [Keyed(keys[0], items[0])] + Zip(keys[1..], items[1..])
  }

  /** Ascending by key, as `list.sort` leaves a list. */
  predicate Sorted<T>(s: seq<Keyed<T>>) {
    forall i, j :: 0 <= i < j < |s| ==> !KeyLess(s[j].key, s[i].key)
  }

  /** The elements carrying key `k`, in their order. */
  function WithKey<T>(s: seq<Keyed<T>>, k: Key): seq<Keyed<T>> {
    if s == [] then [] else (if s[0].key == k then [s[0]] else []) + WithKey(s[1..], k)
  }

  /** Put `x` in front of the first element whose key is not smaller than its own. */
  function Insert<T>(x: Keyed<T>, s: seq<Keyed<T>>): seq<Keyed<T>> {
    if s == [] || !KeyLess(s[0].key, x.key) then [x] + s else [s[0]] + Insert(x, s[1..])
  }

  /** `list.sort(key=...)`: a stable sort, built by inserting from the back. */
  function SortKeyed<T>(s: seq<Keyed<T>>): seq<Keyed<T>> {
    if s == [] then [] else Insert(s[0], SortKeyed(s[1..]))
  }

  /** The items of `items` reordered by ascending `keys`, ties kept in their order. */
  function SortBy<T>(items: seq<T>, keys: seq<Key>): seq<T>
    requires |keys| == |items|
  {
    Items(SortKeyed(Zip(keys, items)))
  }

  /** No key in `s` is below `lo`. */
  predicate AtLeast<T>(s: seq<Keyed<T>>, lo: Key) {
    forall i :: 0 <= i < |s| ==> !KeyLess(s[i].key, lo)
  }

  /** "Not below" chains: `a <= b` and `b <= c` give `a <= c`. */
  lemma {:induction false} NotLessChain(a: Key, b: Key, c: Key)
    requires !KeyLess(b, a) && !KeyLess(c, b)
    ensures !KeyLess(c, a)
  {
    if KeyLess(c, a) {
      if a == b {
      } else {
        KeyLessTotal(a, b);
        KeyLessTransitive(c, a, b);
      }
    }
  }

  lemma {:induction false} InsertCount<T>(x: Keyed<T>, s: seq<Keyed<T>>)
    ensures |Insert(x, s)| == |s| + 1
    ensures multiset(Insert(x, s)) == multiset{x} + multiset(s)
    ensures multiset(Items(Insert(x, s))) == multiset{x.item} + multiset(Items(s))
  {
    InsertKeeps(x, s);
    InsertItems(x, s);
  }

  lemma {:induction false} InsertKeeps<T>(x: Keyed<T>, s: seq<Keyed<T>>)
    ensures |Insert(x, s)| == |s| + 1
    ensures multiset(Insert(x, s)) == multiset{x} + multiset(s)
  {
    if !(s == [] || !KeyLess(s[0].key, x.key)) {
      InsertKeeps(x, s[1..]);
      assert Insert(x, s) == [s[0]] + Insert(x, s[1..]);
      assert s == [s[0]] + s[1..];
    }
  }

  lemma {:induction false} InsertItems<T>(x: Keyed<T>, s: seq<Keyed<T>>)
    ensures multiset(Items(Insert(x, s))) == multiset{x.item} + multiset(Items(s))
  {
    var r := Insert(x, s);
    if s == [] || !KeyLess(s[0].key, x.key) {
      assert r[0] == x && r[1..] == s;
      assert Items(r) == [x.item] + Items(s);
    } else {
      InsertItems(x, s[1..]);
      assert r[0] == s[0] && r[1..] == Insert(x, s[1..]);
      assert Items(r) == [s[0].item] + Items(Insert(x, s[1..]));
      assert Items(s) == [s[0].item] + Items(s[1..]);
    }
  }

  lemma {:induction false} InsertWithKey<T>(x: Keyed<T>, s: seq<Keyed<T>>, k: Key)
    ensures WithKey(Insert(x, s), k) == (if x.key == k then [x] else []) + WithKey(s, k)
  {
    var r := Insert(x, s);
    if s == [] || !KeyLess(s[0].key, x.key) {
      assert r == [x] + s;
      assert r[1..] == s;
    } else {
      InsertWithKey(x, s[1..], k);
      assert r == [s[0]] + Insert(x, s[1..]);
      assert r[1..] == Insert(x, s[1..]);
      if x.key == k {
        KeyLessIrreflexive(k);
        assert s[0].key != k;
      }
    }
  }

  lemma {:induction false} InsertAtLeast<T>(x: Keyed<T>, s: seq<Keyed<T>>, lo: Key)
    requires AtLeast(s, lo) && !KeyLess(x.key, lo)
    ensures AtLeast(Insert(x, s), lo)
  {
    if !(s == [] || !KeyLess(s[0].key, x.key)) {
      InsertAtLeast(x, s[1..], lo);
      assert Insert(x, s) == [s[0]] + Insert(x, s[1..]);
    }
  }

  lemma {:induction false} InsertSorted<T>(x: Keyed<T>, s: seq<Keyed<T>>)
    requires Sorted(s)
    ensures Sorted(Insert(x, s))
  {
    var r := Insert(x, s);
    if s == [] {
    } else if !KeyLess(s[0].key, x.key) {
      assert r == [x] + s;
      forall j | 1 <= j < |r| ensures !KeyLess(r[j].key, x.key) {
        if j > 1 { NotLessChain(x.key, s[0].key, s[j - 1].key); }
      }
    } else {
      var t := Insert(x, s[1..]);
      InsertSorted(x, s[1..]);
      assert r == [s[0]] + t;
      assert AtLeast(s[1..], s[0].key);
      if KeyLess(x.key, s[0].key) {
        KeyLessTransitive(x.key, s[0].key, x.key);
        KeyLessIrreflexive(x.key);
      }
      InsertAtLeast(x, s[1..], s[0].key);
      assert forall j :: 1 <= j < |r| ==> r[j] == t[j - 1];
    }
  }

  /** The sort keeps every element, as many times as it occurs. */
  lemma {:induction false} SortKeyedCount<T>(s: seq<Keyed<T>>)
    ensures |SortKeyed(s)| == |s|
    ensures multiset(SortKeyed(s)) == multiset(s)
    ensures multiset(Items(SortKeyed(s))) == multiset(Items(s))
  {
    SortKeyedKeeps(s);
    SortKeyedItems(s);
  }

  lemma {:induction false} SortKeyedKeeps<T>(s: seq<Keyed<T>>)
    ensures |SortKeyed(s)| == |s|
    ensures multiset(SortKeyed(s)) == multiset(s)
  {
    if s != [] {
      SortKeyedKeeps(s[1..]);
      InsertKeeps(s[0], SortKeyed(s[1..]));
      assert s == [s[0]] + s[1..];
    }
  }

  lemma {:induction false} SortKeyedItems<T>(s: seq<Keyed<T>>)
    ensures multiset(Items(SortKeyed(s))) == multiset(Items(s))
  {
    if s != [] {
      SortKeyedItems(s[1..]);
      InsertItems(s[0], SortKeyed(s[1..]));
      assert Items(s) == [s[0].item] + Items(s[1..]);
    }
  }

  /** The sort leaves the keys in ascending order. */
  lemma {:induction false} SortKeyedSorted<T>(s: seq<Keyed<T>>)
    ensures Sorted(SortKeyed(s))
  {
    if s != [] {
      SortKeyedSorted(s[1..]);
      InsertSorted(s[0], SortKeyed(s[1..]));
    }
  }

  /** The sort is stable: elements with equal keys keep their original order. With the
      two lemmas above this determines the result. */
  lemma {:induction false} SortKeyedStable<T>(s: seq<Keyed<T>>, k: Key)
    ensures WithKey(SortKeyed(s), k) == WithKey(s, k)
  {
    if s != [] {
      SortKeyedStable(s[1..], k);
      InsertWithKey(s[0], SortKeyed(s[1..]), k);
    }
  }

  /** `SortBy` keeps the items and leaves them in ascending key order. */
  lemma {:induction false} SortByFacts<T>(items: seq<T>, keys: seq<Key>)
    requires |keys| == |items|
    ensures |SortBy(items, keys)| == |items|
    ensures multiset(SortBy(items, keys)) == multiset(items)
    ensures exists s ::
              && Sorted(s) && Items(s) == SortBy(items, keys)
              && multiset(s) == multiset(Zip(keys, items))
  {
    var z := Zip(keys, items);
    SortKeyedCount(z);
    SortKeyedSorted(z);
    assert Items(z) == items;
    assert Sorted(SortKeyed(z)) && Items(SortKeyed(z)) == SortBy(items, keys);
  }

  /** `SortBy` keeps the items, each as often as before. */
  lemma {:induction false} SortByKeeps<T>(items: seq<T>, keys: seq<Key>)
    requires |keys| == |items|
    ensures |SortBy(items, keys)| == |items|
    ensures multiset(SortBy(items, keys)) == multiset(items)
  {
    SortByFacts(items, keys);
  }

  /** When every key starts with a number, a sorted sequence has those numbers in
      ascending order: a key beginning with `-value` puts the highest value first. */
  lemma {:induction false} SortedFirstNumbers<T>(s: seq<Keyed<T>>, i: int, j: int)
    requires Sorted(s) && 0 <= i < j < |s|
    requires |s[i].key| > 0 && |s[j].key| > 0 && s[i].key[0].Num? && s[j].key[0].Num?
    ensures s[i].key[0].n <= s[j].key[0].n
  {
    if s[j].key[0].n < s[i].key[0].n {
      FirstNumberDecides(s[j].key, s[i].key);
    }
  }

  /** When each key starts with the number `f(item)`, the sorted items have ascending
      `f`. */
  lemma {:induction false} SortByLeadingNumbers<T>(items: seq<T>, keys: seq<Key>, f: T -> int)
    requires |keys| == |items|
    requires forall j :: 0 <= j < |items| ==> |keys[j]| > 0 && keys[j][0] == Num(f(items[j]))
    ensures forall i, j :: 0 <= i < j < |SortBy(items, keys)| ==> f(SortBy(items, keys)[i]) <= f(SortBy(items, keys)[j])
  {
    var z := Zip(keys, items);
    var s := SortKeyed(z);
    SortKeyedCount(z);
    SortKeyedSorted(z);
    forall k | 0 <= k < |s| ensures |s[k].key| > 0 && s[k].key[0] == Num(f(s[k].item)) {
      assert s[k] in multiset(z);
    }
    var r := SortBy(items, keys);
    forall i, j | 0 <= i < j < |r| ensures f(r[i]) <= f(r[j]) {
      SortedFirstNumbers(s, i, j);
    }
  }

  /** `SortByLeadingNumbers` for numbers given by a map on the items: every sorted
      item is in the map and the mapped numbers ascend. */
  lemma {:induction false} SortByMappedNumbers<T>(items: seq<T>, keys: seq<Key>, m: map<T, int>)
    requires |keys| == |items|
    requires forall j :: 0 <= j < |items| ==> items[j] in m && |keys[j]| > 0 && keys[j][0] == Num(m[items[j]])
    ensures forall i :: 0 <= i < |SortBy(items, keys)| ==> SortBy(items, keys)[i] in m
    ensures forall i, j :: 0 <= i < j < |SortBy(items, keys)| ==> m[SortBy(items, keys)[i]] <= m[SortBy(items, keys)[j]]
  {
    var r := SortBy(items, keys);
    SortByFacts(items, keys);
    SortByLeadingNumbers(items, keys, (t: T) => if t in m then m[t] else 0);
    forall i | 0 <= i < |r| ensures r[i] in m {
      assert r[i] in multiset(items);
      var j :| 0 <= j < |items| && items[j] == r[i];
    }
  }

  /** Two keys whose first elements are strings compare as those strings do. */
  lemma {:induction false} FirstTextDecides(a: Key, b: Key)
    requires |a| > 0 && |b| > 0 && a[0].Txt? && b[0].Txt? && StrLess(a[0].s, b[0].s)
    ensures KeyLess(a, b) && !KeyLess(b, a)
  {
    StrLessIrreflexive(a[0].s);
    if b[0] == a[0] {
      assert false;
    }
    if StrLess(b[0].s, a[0].s) {
      StrLessTransitive(a[0].s, b[0].s, a[0].s);
    }
  }

  /** When each key starts with the string `g(item)`, the sorted items have `g` in
      ascending string order. */
  lemma {:induction false} SortByLeadingTexts<T>(items: seq<T>, keys: seq<Key>, g: T -> string)
    requires |keys| == |items|
    requires forall j :: 0 <= j < |items| ==> |keys[j]| > 0 && keys[j][0] == Txt(g(items[j]))
    ensures forall i, j :: 0 <= i < j < |SortBy(items, keys)| ==> !StrLess(g(SortBy(items, keys)[j]), g(SortBy(items, keys)[i]))
  {
    var z := Zip(keys, items);
    var s := SortKeyed(z);
    SortKeyedCount(z);
    SortKeyedSorted(z);
    forall k | 0 <= k < |s| ensures |s[k].key| > 0 && s[k].key[0] == Txt(g(s[k].item)) {
      assert s[k] in multiset(z);
    }
    var r := SortBy(items, keys);
    forall i, j | 0 <= i < j < |r| ensures !StrLess(g(r[j]), g(r[i])) {
      if StrLess(g(r[j]), g(r[i])) {
        FirstTextDecides(s[j].key, s[i].key);
      }
    }
  }

  // ---- random.shuffle ----

  /** The swap partner `random.shuffle` draws at position `i`, from the `k`-th number of
      the stream; a stream that runs out reads as zeros. */
  function Draw(draws: seq<nat>, k: nat, i: nat): (j: nat)
    ensures j <= i
  {
    if k < |draws| then draws[k] % (i + 1) else 0
  }

  function Swap<T>(xs: seq<T>, i: nat, j: nat): (r: seq<T>)
    requires i < |xs| && j < |xs|
    ensures |r| == |xs| && multiset(r) == multiset(xs)
    ensures r[i] == xs[j] && r[j] == xs[i]
    ensures forall m :: 0 <= m < |xs| && m != i && m != j ==> r[m] == xs[m]
  {
    xs[i := xs[j]][j := xs[i]]
  }

  /** Positions `i`, `i-1`, ..., 1 of the Fisher-Yates loop; draw `k` is used first. */
  function ShuffleSteps<T>(xs: seq<T>, draws: seq<nat>, i: nat, k: nat): (r: seq<T>)
    requires i < |xs|
    ensures |r| == |xs| && multiset(r) == multiset(xs)
    decreases i
  {
    if i == 0 then xs else ShuffleSteps(Swap(xs, i, Draw(draws, k, i)), draws, i - 1, k + 1)
  }

  /** `random.shuffle(xs)`: for `i` from `len(xs)-1` down to 1 swap `xs[i]` with
      `xs[j]`, `j` drawn from `0..i`. */
  function Shuffled<T>(xs: seq<T>, draws: seq<nat>): seq<T> {
    if |xs| == 0 then xs else ShuffleSteps(xs, draws, |xs| - 1, 0)
  }

  /** A shuffle is a permutation. */
  lemma {:induction false} ShuffledPermutes<T>(xs: seq<T>, draws: seq<nat>)
    ensures |Shuffled(xs, draws)| == |xs|
    ensures multiset(Shuffled(xs, draws)) == multiset(xs)
  {
  }

  /** A step at position `i` never touches the positions above `i`. */
  lemma {:induction false} StepsKeepAbove<T>(xs: seq<T>, draws: seq<nat>, i: nat, k: nat)
    requires i < |xs|
    ensures forall m :: i < m < |xs| ==> ShuffleSteps(xs, draws, i, k)[m] == xs[m]
    decreases i
  {
    if i > 0 {
      StepsKeepAbove(Swap(xs, i, Draw(draws, k, i)), draws, i - 1, k + 1);
    }
  }

  /** The last position ends up holding the element the first draw picked, so every
      element can come last. */
  lemma {:induction false} ShuffledLast<T>(xs: seq<T>, draws: seq<nat>)
    requires |xs| > 0
    ensures Shuffled(xs, draws)[|xs| - 1] == xs[Draw(draws, 0, |xs| - 1)]
  {
    var n := |xs|;
    if n > 1 {
      StepsKeepAbove(Swap(xs, n - 1, Draw(draws, 0, n - 1)), draws, n - 2, 1);
    }
  }
}
