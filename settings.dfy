// The preference store (setting.py): values kept under the key as it was last written, and
// found again by any spelling of that key that lowers to the same text, filled from a
// `key = value` settings file.

module Settings {
  import opened Text

  /** What a setting holds: text read from the file, or a number a caller stores. */
  datatype Value = Str(text: string) | Int(number: int)

  /** Python truthiness: the empty text and zero are false. */
  predicate Truthy(v: Value) {
    match v
    case Str(t) => t != ""
    case Int(n) => n != 0
  }

  /** The two dictionaries of setting.py:15-16: `dict` from a key as written to its value,
      `lookup` from a lowered key to the spelling last written. */
  datatype Store = Store(dict: map<string, Value>, lookup: map<string, string>)

  const Empty := Store(map[], map[])

  /** `lookup` leads from a lowered key to a stored spelling of it, and every stored key is
      reachable through its lowering. */
  predicate Consistent(st: Store) {
    && (forall k :: k in st.lookup ==> st.lookup[k] in st.dict && Lower(st.lookup[k]) == k)
    && (forall n :: n in st.dict ==> Lower(n) in st.lookup)
  }

  /** `settings[key]` (setting.py:23-25). */
  function Fetch(st: Store, key: string): Option<Value>
    requires Consistent(st)
  {
    if Lower(key) in st.lookup then Some(st.dict[st.lookup[Lower(key)]]) else None
  }

  /** `settings[key] = value` (setting.py:29-31). */
  function Put(st: Store, key: string, v: Value): (r: Store)
    requires Consistent(st)
    ensures Consistent(r)
  {
    Store(st.dict[key := v], st.lookup[Lower(key) := key])
  }

  /** `setDefault(key, value)` (setting.py:35-40): `self[key] = self[key] or value`. */
  function Defaulted(st: Store, key: string, v: Value): (r: Store)
    requires Consistent(st)
    ensures Consistent(r)
  {
    var current := Fetch(st, key);
    Put(st, key, if current.Some? && Truthy(current.value) then current.value else v)
  }

  /** A key reads as `None` exactly when no stored key has the same lowering. */
  lemma {:induction false} Absent(st: Store, key: string)
    requires Consistent(st)
    ensures Fetch(st, key).None? <==> forall n :: n in st.dict ==> Lower(n) != Lower(key)
  {
    if Lower(key) in st.lookup {
      assert st.lookup[Lower(key)] in st.dict;
    }
  }

  /** After a key is set, every spelling of it reads the new value and every other key
      reads what it read before. */
  lemma {:induction false} PutFetch(st: Store, key: string, v: Value, q: string)
    requires Consistent(st)
    ensures Lower(q) == Lower(key) ==> Fetch(Put(st, key, v), q) == Some(v)
    ensures Lower(q) != Lower(key) ==> Fetch(Put(st, key, v), q) == Fetch(st, q)
  {
    if Lower(q) != Lower(key) && Lower(q) in st.lookup {
      assert Lower(st.lookup[Lower(q)]) == Lower(q);
    }
  }

  /** Setting a key again under another casing redirects reads to the new value, and the
      entry under the older casing stays in `dict`. */
  lemma {:induction false} Recased(st: Store, first: string, second: string, v: Value, w: Value)
    requires Consistent(st) && first != second && Lower(first) == Lower(second)
    ensures Put(Put(st, first, v), second, w).dict[first] == v
    ensures Fetch(Put(Put(st, first, v), second, w), first) == Some(w)
    ensures Put(Put(st, first, v), second, w).lookup[Lower(first)] == second
  {
  }

  /** `setDefault` keeps a truthy value already there and otherwise stores the default. */
  lemma {:induction false} DefaultKept(st: Store, key: string, v: Value, q: string)
    requires Consistent(st) && Lower(q) == Lower(key)
    ensures Fetch(st, key).Some? && Truthy(Fetch(st, key).value) ==>
      Fetch(Defaulted(st, key, v), q) == Fetch(st, key)
    ensures Fetch(st, key).None? || !Truthy(Fetch(st, key).value) ==>
      Fetch(Defaulted(st, key, v), q) == Some(v)
  {
    var current := Fetch(st, key);
    PutFetch(st, key, if current.Some? && Truthy(current.value) then current.value else v, q);
  }

  // ---- the settings file ----

  predicate Comment(c: char) { c == '#' || c == ';' }

  /** `re.match('^ *[^#;]+=', line)` (setting.py:51): an '=' after at least one character,
      with no '#' or ';' before it. The leading spaces of the pattern add nothing, since the
      class after them admits spaces too. */
  predicate Accepted(line: string) {
    exists j :: 1 <= j < |line| && line[j] == '=' && forall i :: 0 <= i < j ==> !Comment(line[i])
  }

  /** `tokens[0].strip()` (setting.py:54). */
  function KeyOf(line: string): string {
    Strip(Split(line, '=')[0])
  }

  /** `'='.join(tokens[1:]).strip()` (setting.py:55). */
  function ValueOf(line: string): string {
    Strip(Join('=', Split(line, '=')[1..]))
  }

  /** One line of the file (setting.py:51-56). */
  function LineEffect(st: Store, line: string): (r: Store)
    requires Consistent(st)
    ensures Consistent(r)
  {
    if Accepted(line) && |Split(line, '=')| >= 2 then Put(st, KeyOf(line), Str(ValueOf(line)))
    else st
  }

  /** The store after reading `lines` in order (setting.py:50-56). */
  function ReadLines(st: Store, lines: seq<string>): (r: Store)
    requires Consistent(st)
    ensures Consistent(r)
    decreases |lines|
  {
    if lines == [] then st else LineEffect(ReadLines(st, lines[..|lines| - 1]), lines[|lines| - 1])
  }

  /** An accepted line holds an '=', so its split always has the two parts the source
      tests for. */
  lemma {:induction false} AcceptedSplits(line: string)
    requires Accepted(line)
    ensures '=' in line && |Split(line, '=')| >= 2
  {
    var j :| 1 <= j < |line| && line[j] == '=' && forall i :: 0 <= i < j ==> !Comment(line[i]);
    assert line[j] in line;
    SplitAtFirst(line, '=');
  }

  /** The key is the text before the first '=', stripped, and the value all the text after
      it, stripped, however many '=' it holds. */
  lemma {:induction false} ParsedLine(st: Store, line: string)
    requires Consistent(st) && Accepted(line)
    ensures '=' in line
    ensures KeyOf(line) == Strip(line[..FirstIndex(line, '=')])
    ensures ValueOf(line) == Strip(line[FirstIndex(line, '=') + 1..])
    ensures LineEffect(st, line) == Put(st, KeyOf(line), Str(ValueOf(line)))
  {
    AcceptedSplits(line);
    SplitAtFirst(line, '=');
  }

  /** A line whose first non-space character is '#' or ';' is never accepted, and reading it
      changes nothing. */
  lemma {:induction false} CommentIgnored(st: Store, lines: seq<string>, line: string, k: nat)
    requires Consistent(st)
    requires k < |line| && Comment(line[k]) && forall i :: 0 <= i < k ==> line[i] == ' '
    ensures !Accepted(line)
    ensures ReadLines(st, lines + [line]) == ReadLines(st, lines)
  {
    forall j | 1 <= j < |line| && line[j] == '='
      ensures k < j && Comment(line[k])
    {
    }
    assert (lines + [line])[..|lines|] == lines;
  }

  /** The value read for a key is the one on the last accepted line naming it, in any
      casing. */
  lemma {:induction false} LastWins(st: Store, lines: seq<string>, j: nat, q: string)
    requires Consistent(st)
    requires j < |lines| && Accepted(lines[j]) && Lower(KeyOf(lines[j])) == Lower(q)
    requires forall i :: j < i < |lines| && Accepted(lines[i]) ==> Lower(KeyOf(lines[i])) != Lower(q)
    ensures Fetch(ReadLines(st, lines), q) == Some(Str(ValueOf(lines[j])))
    decreases |lines|
  {
    var init := lines[..|lines| - 1];
    var last := lines[|lines| - 1];
    var before := ReadLines(st, init);
    if Accepted(last) {
      AcceptedSplits(last);
    }
    if j == |lines| - 1 {
      PutFetch(before, KeyOf(last), Str(ValueOf(last)), q);
    } else {
      LastWins(st, init, j, q);
      if Accepted(last) {
        PutFetch(before, KeyOf(last), Str(ValueOf(last)), q);
      }
    }
  }

  /** `Settings` (setting.py:9-56). */
  class Settings {
    var dict: map<string, Value>
    var lookup: map<string, string>

    function Contents(): Store
      reads this
    {
      Store(dict, lookup)
    }

    predicate Valid()
      reads this
    {
      Consistent(Contents())
    }

    /** `Settings(settingsFilespec)` (setting.py:14-19): empty, then filled from the file's
        lines when a file is named. */
    constructor(file: Option<seq<string>>)
      ensures Valid()
      ensures Contents() == if file.Some? then ReadLines(Empty, file.value) else Empty
    {
      dict := map[];
      lookup := map[];
      new;
      if file.Some? {
        ReadFile(file.value);
      }
    }

    /** `settings[key]` (setting.py:23-25). */
    function Get(key: string): (r: Option<Value>)
      reads this
      requires Valid()
      ensures r == Fetch(Contents(), key)
      ensures r.None? <==> forall n :: n in dict ==> Lower(n) != Lower(key)
    {
      Absent(Contents(), key);
      if Lower(key) in lookup then Some(dict[lookup[Lower(key)]]) else None
    }

    /** `settings[key] = value` (setting.py:29-31). */
    method Set(key: string, value: Value)
      requires Valid()
      modifies this
      ensures Valid()
      ensures Contents() == Put(old(Contents()), key, value)
    {
      lookup := lookup[Lower(key) := key];
      dict := dict[key := value];
    }

    /** `setDefault(key, value)` (setting.py:35-40). */
    method SetDefault(key: string, value: Value)
      requires Valid()
      modifies this
      ensures Valid()
      ensures Contents() == Defaulted(old(Contents()), key, value)
    {
      var current := Get(key);
      Set(key, if current.Some? && Truthy(current.value) then current.value else value);
    }

    /** `readFile` (setting.py:44-56) over the file's lines. */
    method ReadFile(lines: seq<string>)
      requires Valid()
      modifies this
      ensures Valid()
      ensures Contents() == ReadLines(old(Contents()), lines)
    {
      var i := 0;
      while i < |lines|
        invariant i <= |lines| && Valid()
        invariant Contents() == ReadLines(old(Contents()), lines[..i])
      {
        var line := lines[i];
        assert lines[..i + 1][..i] == lines[..i];
        if Accepted(line) {
          var tokens := Split(line, '=');
          if |tokens| >= 2 {
            var key := Strip(tokens[0]);
            var value := Strip(Join('=', tokens[1..]));
            Set(key, Str(value));
          }
        }
        i := i + 1;
      }
      assert lines[..i] == lines;
    }
  }
}
