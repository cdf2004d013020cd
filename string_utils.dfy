/** `formatSlugToTitle` (src/utils/stringUtils.ts): a route slug such as
    `hanh-dong` shown as a title, `Hanh Dong`. Every `-` becomes a space, then
    each ASCII word character (`\w`: letters, digits, `_`) that starts a word
    (`\b\w`) is upper-cased. */
module StringUtils {
  import opened Base

  /** The route parameter: absent, one segment, or a catch-all list of segments. */
  datatype SlugArg = Undefined | Str(s: string) | Arr(segments: seq<string>)

  /** `\w` in a JavaScript regular expression without the `u` flag. */
  predicate IsWordChar(c: char) {
    'A' <= c <= 'Z' || 'a' <= c <= 'z' || '0' <= c <= '9' || c == '_'
  }

  /** `toUpperCase` on a word character: only `a`-`z` change. */
  function UpperAscii(c: char): (u: char)
    ensures IsWordChar(c) ==> IsWordChar(u)
    ensures !('a' <= c <= 'z') ==> u == c
  {
    if 'a' <= c <= 'z' then (c as int - 32) as char else c
  }

  /** Both replacements over `s`, where `afterWord` says whether the character
      before `s` was a word character. */
  function Titled(s: string, afterWord: bool): (r: string)
    ensures |r| == |s|
    ensures '-' !in r
  {
    if s == [] then []
    else
      var c := if s[0] == '-' then ' ' else s[0];
      var c' := if IsWordChar(c) && !afterWord then UpperAscii(c) else c;
      [c'] + Titled(s[1..], IsWordChar(c))
  }

  /** The character at `i` of the result, stated on its own: a dash becomes a
      space, a word character with no word character before it is upper-cased,
      anything else is kept. */
  function TitleCharAt(s: string, i: nat, afterWord: bool): char
    requires i < |s|
  {
    var wordBefore := if i == 0 then afterWord else IsWordChar(s[i - 1]);
    if s[i] == '-' then ' '
    else if IsWordChar(s[i]) && !wordBefore then UpperAscii(s[i])
    else s[i]
  }

  lemma {:induction false} TitledAt(s: string, afterWord: bool)
    ensures forall i :: 0 <= i < |s| ==> Titled(s, afterWord)[i] == TitleCharAt(s, i, afterWord)
  {
    if s != [] {
      TitledAt(s[1..], IsWordChar(if s[0] == '-' then ' ' else s[0]));
      forall i | 1 <= i < |s| ensures Titled(s, afterWord)[i] == TitleCharAt(s, i, afterWord) {
        assert Titled(s, afterWord)[i] == Titled(s[1..], IsWordChar(if s[0] == '-' then ' ' else s[0]))[i - 1];
        assert s[1..][i - 1] == s[i];
        if i > 1 { assert s[1..][i - 2] == s[i - 1]; }
      }
    }
  }

  /** `formatSlugToTitle(slug)`. An empty array has no first element, and calling
      `replace` on `undefined` throws a `TypeError`. */
  function FormatSlugToTitle(slug: SlugArg): (r: Result<string>)
    ensures slug.Undefined? ==> r == Ok("")
    ensures slug.Str? ==> r == Ok(Titled(slug.s, false))
    ensures slug.Arr? ==> (r.Err? <==> slug.segments == [])
    ensures slug.Arr? && slug.segments != [] ==> r == Ok(Titled(slug.segments[0], false))
  {
    match slug
    case Undefined => Ok("")
    case Str(s) => if s == "" then Ok("") else Ok(Titled(s, false))
    case Arr(segments) =>
      if segments == [] then Err("TypeError: Cannot read properties of undefined (reading 'replace')")
      else Ok(Titled(segments[0], false))
  }

  /** The title has the slug's length and no dash, and differs from the slug
      only where a dash became a space or a word's first letter was capitalised. */
  lemma TitleShape(s: string)
    ensures var t := Titled(s, false);
      |t| == |s| && '-' !in t &&
      forall i :: 0 <= i < |s| ==>
        (s[i] == '-' ==> t[i] == ' ') &&
        (s[i] != '-' && t[i] != s[i] ==> 'a' <= s[i] <= 'z' && t[i] == UpperAscii(s[i]) && (i == 0 || !IsWordChar(s[i - 1])))
  {
    TitledAt(s, false);
  }

  /** Formatting a title again changes nothing. */
  lemma TitleIdempotent(s: string)
    ensures Titled(Titled(s, false), false) == Titled(s, false)
  {
    var t := Titled(s, false);
    TitledAt(s, false);
    TitledAt(t, false);
    assert forall i :: 0 <= i < |s| ==> (IsWordChar(t[i]) <==> IsWordChar(s[i]));
    forall i | 0 <= i < |t| ensures Titled(t, false)[i] == t[i] {
      assert t[i] == TitleCharAt(s, i, false);
      if i > 0 { assert t[i - 1] == TitleCharAt(s, i - 1, false); }
    }
  }
}
