/** String helpers the Python code gets from `str`: `strip`, `lower`, `split`/`join`
    on one separator, the text accepted by `int(...)`, and decimal rendering. */
module Text {

  /** A value that may be missing, Python's `None`. */
  datatype Option<T> = None | Some(value: T)

  /** Characters `str.strip()` removes: those `str.isspace()` accepts, the control
      separators U+09–U+0D and U+1C–U+1F, and the Unicode space and line separators. */
  predicate IsSpace(c: char) {
    || '\U{09}' <= c <= '\U{0D}' || '\U{1C}' <= c <= '\U{20}'
    || c == '\U{85}' || c == '\U{A0}' || c == '\U{1680}'
    || '\U{2000}' <= c <= '\U{200A}' || c == '\U{2028}' || c == '\U{2029}'
    || c == '\U{202F}' || c == '\U{205F}' || c == '\U{3000}'
  }

  function LStrip(s: string): string {
    if |s| > 0 && IsSpace(s[0]) then LStrip(s[1..]) else s
  }

  function RStrip(s: string): string {
    if |s| > 0 && IsSpace(s[|s| - 1]) then RStrip(s[..|s| - 1]) else s
  }

  /** `lstrip` drops a run of leading whitespace and stops at the first other character. */
  lemma {:induction false} LStripFacts(s: string)
    ensures |LStrip(s)| <= |s| && LStrip(s) == s[|s| - |LStrip(s)|..]
    ensures forall i :: 0 <= i < |s| - |LStrip(s)| ==> IsSpace(s[i])
    ensures LStrip(s) == [] || !IsSpace(LStrip(s)[0])
  {
    if |s| > 0 && IsSpace(s[0]) {
      LStripFacts(s[1..]);
      forall i | 0 < i < |s| - |LStrip(s)| ensures IsSpace(s[i]) {
        assert s[i] == s[1..][i - 1];
      }
    }
  }

  /** `rstrip` drops a run of trailing whitespace and stops at the last other character. */
  lemma {:induction false} RStripFacts(s: string)
    ensures |RStrip(s)| <= |s| && RStrip(s) == s[..|RStrip(s)|]
    ensures forall i :: |RStrip(s)| <= i < |s| ==> IsSpace(s[i])
    ensures RStrip(s) == [] || !IsSpace(RStrip(s)[|RStrip(s)| - 1])
  {
    if |s| > 0 && IsSpace(s[|s| - 1]) {
      RStripFacts(s[..|s| - 1]);
      forall i | |RStrip(s)| <= i < |s| - 1 ensures IsSpace(s[i]) {
        assert s[i] == s[..|s| - 1][i];
      }
    }
  }

  /** `s.strip()`: drop leading and trailing whitespace. */
  function Strip(s: string): string {
    RStrip(LStrip(s))
  }

  /** What `strip` returns: a slice of `s` with no whitespace at either end, and
      everything it dropped was whitespace. */
  lemma {:induction false} StripSlice(s: string)
    ensures exists i, j ::
              && 0 <= i <= j <= |s| && Strip(s) == s[i..j]
              && (forall k :: 0 <= k < i ==> IsSpace(s[k]))
              && (forall k :: j <= k < |s| ==> IsSpace(s[k]))
    ensures Strip(s) == [] || (!IsSpace(Strip(s)[0]) && !IsSpace(Strip(s)[|Strip(s)| - 1]))
  {
    var l := LStrip(s);
    LStripFacts(s);
    RStripFacts(l);
    var i := |s| - |l|;
    var r := RStrip(l);
    var j := i + |r|;
    assert l == s[i..];
    assert r == l[..|r|];
    assert Strip(s) == r;
    assert r == s[i..j];
    assert forall k :: j <= k < |s| ==> IsSpace(s[k]) by {
      forall k | j <= k < |s| ensures IsSpace(s[k]) {
        assert s[k] == l[k - i];
      }
    }
    if r != [] {
      assert r[0] == l[0];
    }
  }

  /** Stripping twice changes nothing: the ids the entities store are already stripped,
      so the second `strip()` in `Bids.add` is the identity. */
  lemma {:induction false} StripIdempotent(s: string)
    ensures Strip(Strip(s)) == Strip(s)
  {
    var t := Strip(s);
    StripSlice(s);
    LStripFacts(t);
    RStripFacts(t);
    if t != [] {
      assert LStrip(t) == t;
      assert RStrip(t) == t;
    }
  }

  /** ASCII part of `str.lower()`. */
  function LowerChar(c: char): char {
    if 'A' <= c <= 'Z' then (c as int + 32) as char else c
  }

  function Lower(s: string): (r: string)
    ensures |r| == |s|
    ensures forall i :: 0 <= i < |s| ==> r[i] == LowerChar(s[i])
  {
    if s == [] then [] else [LowerChar(s[0])] + Lower(s[1..])
  }

  lemma {:induction false} LowerIdempotent(s: string)
    ensures Lower(Lower(s)) == Lower(s)
  {
    if s != [] {
      LowerIdempotent(s[1..]);
      assert Lower(s)[1..] == Lower(s[1..]);
    }
  }

  // ---- split / join on one separator character ----

  /** `s.split(sep)`: always at least one part; no part holds `sep`. */
  function Split(s: string, sep: char): (parts: seq<string>)
    ensures |parts| >= 1
    ensures forall p :: p in parts ==> sep !in p
  {
    if |s| == 0 then [""]
    else
      var rest := Split(s[1..], sep);
      if s[0] == sep then [""] + rest
      else [[s[0]] + rest[0]] + rest[1..]
  }

  /** `sep.join(parts)`. */
  function Join(sep: char, parts: seq<string>): string {
    if |parts| == 0 then ""
    else if |parts| == 1 then parts[0]
    else parts[0] + [sep] + Join(sep, parts[1..])
  }

  lemma {:induction false} JoinSplit(s: string, sep: char)
    ensures Join(sep, Split(s, sep)) == s
  {
    if |s| > 0 {
      var rest := Split(s[1..], sep);
      JoinSplit(s[1..], sep);
      if s[0] == sep {
        assert Split(s, sep)[1..] == rest;
      } else if |rest| > 1 {
        var parts := Split(s, sep);
        assert parts[1..] == rest[1..];
        assert Join(sep, rest) == rest[0] + [sep] + Join(sep, rest[1..]);
      }
    }
  }

  /** Position of the first `c` in `s`. */
  function FirstIndex(s: string, c: char): (i: nat)
    requires c in s
    ensures i < |s| && s[i] == c && c !in s[..i]
  {
    if s[0] == c then 0 else 1 + FirstIndex(s[1..], c)
  }

  /** The first part of a split is the text before the first separator, and rejoining the
      other parts gives back exactly the text after it. */
  lemma {:induction false} SplitAtFirst(s: string, sep: char)
    requires sep in s
    ensures |Split(s, sep)| >= 2
    ensures Split(s, sep)[0] == s[..FirstIndex(s, sep)]
    ensures Join(sep, Split(s, sep)[1..]) == s[FirstIndex(s, sep) + 1..]
  {
    var rest := Split(s[1..], sep);
    if s[0] == sep {
      assert Split(s, sep)[1..] == rest;
      JoinSplit(s[1..], sep);
    } else {
      SplitAtFirst(s[1..], sep);
      var parts := Split(s, sep);
      assert parts[1..] == rest[1..];
      assert s[1..][..FirstIndex(s[1..], sep)] == s[1..FirstIndex(s, sep)];
      assert s[..FirstIndex(s, sep)] == [s[0]] + s[1..FirstIndex(s, sep)];
    }
  }

  lemma {:induction false} SplitWithout(s: string, sep: char)
    requires sep !in s
    ensures Split(s, sep) == [s]
  {
    if |s| > 0 {
      SplitWithout(s[1..], sep);
      assert [s[0]] + s[1..] == s;
    }
  }

  // ---- integers as text ----

  predicate IsDigit(c: char) { '0' <= c <= '9' }

  /** Decimal digits where single underscores may stand between two digits. */
  predicate DigitGroups(s: string) {
    && |s| > 0
    && IsDigit(s[0]) && IsDigit(s[|s| - 1])
    && (forall i :: 0 <= i < |s| ==> IsDigit(s[i]) || s[i] == '_')
    && (forall i :: 0 <= i < |s| - 1 ==> !(s[i] == '_' && s[i + 1] == '_'))
  }

  /** Text that `int(s)` converts without raising `ValueError`. */
  predicate IsIntLiteral(s: string) {
    var t := Strip(s);
    |t| > 0 && (if t[0] == '+' || t[0] == '-' then DigitGroups(t[1..]) else DigitGroups(t))
  }

  function DigitChar(d: nat): char
    requires d < 10
  {
    ('0' as int + d) as char
  }

  /** `str(n)` for a natural number. */
  function Decimal(n: nat): (r: string)
    ensures |r| >= 1 && forall i :: 0 <= i < |r| ==> IsDigit(r[i])
  {
    if n < 10 then [DigitChar(n)] else Decimal(n / 10) + [DigitChar(n % 10)]
  }

  function DigitValue(c: char): (d: nat)
    requires IsDigit(c)
    ensures d < 10 && DigitChar(d) == c
  {
    c as int - '0' as int
  }

  /** The number a string of decimal digits denotes. */
  function DecimalValue(s: string): nat
    requires forall i :: 0 <= i < |s| ==> IsDigit(s[i])
  {
    if s == [] then 0 else 10 * DecimalValue(s[..|s| - 1]) + DigitValue(s[|s| - 1])
  }

  lemma {:induction false} DecimalRoundTrip(n: nat)
    ensures DecimalValue(Decimal(n)) == n
  {
    if n >= 10 {
      DecimalRoundTrip(n / 10);
      var r := Decimal(n);
      assert r[..|r| - 1] == Decimal(n / 10);
    }
  }

  /** The number a run of digits and underscores denotes, underscores skipped. */
  function GroupsValue(s: string): nat
    requires forall i :: 0 <= i < |s| ==> IsDigit(s[i]) || s[i] == '_'
  {
    if s == [] then 0
    else if s[|s| - 1] == '_' then GroupsValue(s[..|s| - 1])
    else 10 * GroupsValue(s[..|s| - 1]) + DigitValue(s[|s| - 1])
  }

  /** `int(s)` on text it accepts: surrounding whitespace dropped, an optional sign, digit
      groups. */
  function IntValue(s: string): int
    requires IsIntLiteral(s)
  {
    var t := Strip(s);
    if t[0] == '-' then -(GroupsValue(t[1..]) as int)
    else if t[0] == '+' then GroupsValue(t[1..])
    else GroupsValue(t)
  }

  /** `str(i)`. */
  function IntText(i: int): string {
    if i < 0 then "-" + Decimal(-i) else Decimal(i)
  }

  lemma {:induction false} GroupsOfDigits(s: string)
    requires forall i :: 0 <= i < |s| ==> IsDigit(s[i])
    ensures GroupsValue(s) == DecimalValue(s)
  {
    if s != [] {
      GroupsOfDigits(s[..|s| - 1]);
    }
  }

  /** Text with no whitespace at either end is its own `strip()`. */
  lemma {:induction false} StripNoSpace(s: string)
    requires |s| > 0 && !IsSpace(s[0]) && !IsSpace(s[|s| - 1])
    ensures Strip(s) == s
  {
    assert LStrip(s) == s;
  }

  /** `int(str(i)) == i`. */
  lemma {:induction false} IntRoundTrip(i: int)
    ensures IsIntLiteral(IntText(i)) && IntValue(IntText(i)) == i
  {
    var n: nat := if i < 0 then -i else i;
    var d := Decimal(n);
    DecimalRoundTrip(n);
    GroupsOfDigits(d);
    var s := IntText(i);
    assert IsDigit(s[|s| - 1]);
    StripNoSpace(s);
    if i < 0 {
      assert s[1..] == d;
    }
  }

  function Repeat(c: char, n: nat): (r: string)
    ensures |r| == n && forall i :: 0 <= i < n ==> r[i] == c
  {
    if n == 0 then [] else [c] + Repeat(c, n - 1)
  }

  /** `"{:0<w>d}".format(n)` for a natural number: zeros on the left up to width `w`. */
  function ZeroPadded(n: nat, width: nat): (r: string)
    ensures |r| == if |Decimal(n)| < width then width else |Decimal(n)|
  {
    var d := Decimal(n);
    if |d| < width then Repeat('0', width - |d|) + d else d
  }

  /** Zero padding never changes the number the digits denote. */
  lemma {:induction false} ZeroPaddedValue(n: nat, width: nat)
    ensures forall i :: 0 <= i < |ZeroPadded(n, width)| ==> IsDigit(ZeroPadded(n, width)[i])
    ensures DecimalValue(ZeroPadded(n, width)) == n
  {
    DecimalRoundTrip(n);
    var d := Decimal(n);
    if |d| < width {
      LeadingZeros(width - |d|, d);
    }
  }

  lemma {:induction false} LeadingZeros(k: nat, d: string)
    requires forall i :: 0 <= i < |d| ==> IsDigit(d[i])
    ensures forall i :: 0 <= i < |Repeat('0', k) + d| ==> IsDigit((Repeat('0', k) + d)[i])
    ensures DecimalValue(Repeat('0', k) + d) == DecimalValue(d)
  {
    var z := Repeat('0', k);
    assert forall i :: 0 <= i < |z + d| ==> IsDigit((z + d)[i]) by {
      forall i | 0 <= i < |z + d| ensures IsDigit((z + d)[i]) {
        if i < |z| { assert (z + d)[i] == '0'; } else { assert (z + d)[i] == d[i - |z|]; }
      }
    }
    if d == [] {
      ZerosValue(k);
      assert z + d == z;
    } else {
      LeadingZeros(k, d[..|d| - 1]);
      assert (z + d)[..|z + d| - 1] == z + d[..|d| - 1];
    }
  }

  lemma {:induction false} ZerosValue(k: nat)
    ensures DecimalValue(Repeat('0', k)) == 0
  {
    if k > 0 {
      ZerosValue(k - 1);
      var z := Repeat('0', k);
      assert z[..k - 1] == Repeat('0', k - 1);
    }
  }
}
