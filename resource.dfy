// Small text helpers shared by the reports (resource.py): plurals, underlines and the
// heading lines.

module Resource {
  import opened Text

  /** `plural(count, singular, multiple)` (resource.py:62-74). */
  function Plural(count: int, singular: string, multiple: Option<string>): string {
    if count == 1 then singular
    else if multiple.None? then singular + "s"
    else multiple.value
  }

  /** One of anything is the singular; any other count, zero included, is the irregular
      plural when one is given and otherwise the singular with "s" appended. */
  lemma {:induction false} PluralForms(count: int, singular: string, multiple: Option<string>)
    ensures count == 1 ==> Plural(count, singular, multiple) == singular
    ensures count != 1 && multiple.None? ==> Plural(count, singular, multiple) == singular + "s"
    ensures count != 1 && multiple.Some? ==> Plural(count, singular, multiple) == multiple.value
    ensures Plural(0, singular, None) == singular + "s"
  {
  }

  /** `"{:" + c + ">" + str(w) + "s}".format(c)`: the one-character text `c` right-aligned
      in a field of width `w` filled with `c`. A brace as fill leaves the format string
      unparsable, and `format` raises `ValueError`. */
  function RightAligned(c: char, width: nat): Option<string> {
    if c == '{' || c == '}' then None
    else if width <= 1 then Some([c])
    else Some(Repeat(c, width - 1) + [c])
  }

  /** `underline_(string, underlineCharacter)` (resource.py:40-45). */
  function Underline(s: string, c: char): Option<string> {
    RightAligned(c, |s|)
  }

  /** An underline is the fill character and nothing else, as long as the text it
      underlines, and one character long under the empty text. */
  lemma {:induction false} UnderlineShape(s: string, c: char)
    requires c != '{' && c != '}'
    ensures Underline(s, c).Some?
    ensures |Underline(s, c).value| == if |s| == 0 then 1 else |s|
    ensures forall i :: 0 <= i < |Underline(s, c).value| ==> Underline(s, c).value[i] == c
  {
    if |s| > 1 {
      var r := Repeat(c, |s| - 1) + [c];
      assert forall i :: 0 <= i < |r| ==> r[i] == c by {
        forall i | 0 <= i < |r| ensures r[i] == c {
          if i < |s| - 1 { assert r[i] == Repeat(c, |s| - 1)[i]; }
        }
      }
    }
  }

  /** A brace never underlines anything. */
  lemma {:induction false} UnderlineBrace(s: string, c: char)
    requires c == '{' || c == '}'
    ensures Underline(s, c).None?
  {
  }

  /** `["#", "=", "-", "."][headLevel - 1]` when `1 <= headLevel < 4` (resource.py:32-36). */
  function HeadingCharacter(headLevel: int): Option<char> {
    var marks := ['#', '=', '-', '.'];
    if 1 <= headLevel < |marks| then Some(marks[headLevel - 1]) else None
  }

  /** Levels 1, 2 and 3 underline with '#', '=' and '-'; every other level, 4 included,
      has no underline, so the list's '.' is never chosen. */
  lemma {:induction false} HeadingCharacters(headLevel: int)
    ensures HeadingCharacter(1) == Some('#')
    ensures HeadingCharacter(2) == Some('=')
    ensures HeadingCharacter(3) == Some('-')
    ensures HeadingCharacter(headLevel).Some? <==> 1 <= headLevel <= 3
    ensures HeadingCharacter(headLevel) != Some('.')
  {
  }

  /** The lines `printHeading(headline, indent, headLevel)` prints (resource.py:26-36). The
      indentation is `"".ljust(0)`, the empty text, whatever `indent` is. */
  function HeadingLines(headline: string, indent: int, headLevel: int): (r: seq<string>)
    ensures 1 <= |r| <= 2 && r[0] == headline
    ensures |r| == 2 <==> 1 <= headLevel <= 3
  {
    var indentation := "";
    var mark := HeadingCharacter(headLevel);
    if mark.Some? then
      UnderlineShape(headline, mark.value);
      [indentation + headline, indentation + Underline(headline, mark.value).value]
    else [indentation + headline]
  }

  /** Under the written code the indent has no effect: a heading prints at every indent
      exactly as at indent 0, with the headline unindented in its first line. */
  lemma {:induction false} IndentIgnored(headline: string, indent: int, headLevel: int)
    ensures HeadingLines(headline, indent, headLevel) == HeadingLines(headline, 0, headLevel)
    ensures HeadingLines(headline, indent, headLevel)[0] == headline
  {
  }

  /** The heading lines as the documentation describes them: each one indented by
      `indent` spaces, as `"".ljust(indent)` gives. */
  function IndentedHeadingLines(headline: string, indent: int, headLevel: int): (r: seq<string>)
    ensures 1 <= |r| <= 2 && |r| == |HeadingLines(headline, indent, headLevel)|
    ensures forall i :: 0 <= i < |r| ==> r[i] == Repeat(' ', if indent < 0 then 0 else indent) + HeadingLines(headline, indent, headLevel)[i]
  {
    var indentation := Repeat(' ', if indent < 0 then 0 else indent);
    var mark := HeadingCharacter(headLevel);
    if mark.Some? then
      UnderlineShape(headline, mark.value);
      [indentation + headline, indentation + Underline(headline, mark.value).value]
    else [indentation + headline]
  }

  /** Indented headings start with the requested number of spaces and differ from the
      written ones as soon as `indent` is positive. */
  lemma {:induction false} IndentApplied(headline: string, indent: nat, headLevel: int)
    ensures forall i :: 0 <= i < |IndentedHeadingLines(headline, indent, headLevel)| ==>
      |IndentedHeadingLines(headline, indent, headLevel)[i]| >= indent &&
      IndentedHeadingLines(headline, indent, headLevel)[i][..indent] == Repeat(' ', indent)
    ensures indent > 0 ==> IndentedHeadingLines(headline, indent, headLevel) != HeadingLines(headline, indent, headLevel)
  {
    var r := IndentedHeadingLines(headline, indent, headLevel);
    forall i | 0 <= i < |r|
      ensures |r[i]| >= indent && r[i][..indent] == Repeat(' ', indent)
    {
      assert r[i] == Repeat(' ', indent) + HeadingLines(headline, indent, headLevel)[i];
    }
    if indent > 0 {
      assert |r[0]| == indent + |headline|;
    }
  }
}
