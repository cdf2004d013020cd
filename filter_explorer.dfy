/** The filter shortcuts on the home page (src/components/filters/FilterExplorer.tsx):
    the first twelve categories and countries, the last twelve years, each as a
    labelled link. `toUpperCase` on one UTF-16 unit is the parameter `upper`
    (Unicode case mapping is not modelled), and `getFullYear()` is `currentYear`. */
module FilterExplorer {
  import opened Base
  import opened JsText
  import opened MovieTypes
  import opened YearsPage

  const MaxItems := 12

  /** `list.slice(0, MAX_ITEMS)`: the first twelve entries, in order. */
  function TopItems<T>(list: seq<T>): (r: seq<T>)
    ensures |r| == if |list| < MaxItems then |list| else MaxItems
    ensures r == list[..|r|]
  {
    if |list| < MaxItems then list else list[..MaxItems]
  }

  // ---- formatLabel ----

  /** `s.split(' ')`: the pieces between single spaces, empty ones included. */
  function Split(s: string): (pieces: seq<string>)
    ensures |pieces| >= 1
    ensures forall i :: 0 <= i < |pieces| ==> ' ' !in pieces[i]
  {
    if s == [] then [[]]
    else
      var rest := Split(s[1..]);
      if s[0] == ' ' then [[]] + rest else [[s[0]] + rest[0]] + rest[1..]
  }

  /** `pieces.join(' ')`. */
  function Join(pieces: seq<string>): string
    requires |pieces| >= 1
  {
    if |pieces| == 1 then pieces[0] else pieces[0] + " " + Join(pieces[1..])
  }

  lemma {:induction false} JoinSplit(s: string)
    ensures Join(Split(s)) == s
  {
    if s != [] {
      JoinSplit(s[1..]);
      var rest := Split(s[1..]);
      if s[0] != ' ' && |rest| > 1 {
        assert Join([[s[0]] + rest[0]] + rest[1..]) == [s[0]] + rest[0] + " " + Join(rest[1..]);
      }
    }
  }

  lemma {:induction false} SplitNoSpace(a: string)
    requires ' ' !in a
    ensures Split(a) == [a]
  {
    if a != [] {
      assert ' ' !in a[1..];
      SplitNoSpace(a[1..]);
      assert [a[0]] + a[1..] == a;
    }
  }

  lemma {:induction false} SplitAfterPiece(a: string, b: string)
    requires ' ' !in a
    ensures Split(a + " " + b) == [a] + Split(b)
  {
    if a == [] {
      assert a + " " + b == " " + b && (" " + b)[1..] == b;
    } else {
      assert (a + " " + b)[1..] == a[1..] + " " + b;
      assert ' ' !in a[1..] && (a + " " + b)[0] == a[0] != ' ';
      SplitAfterPiece(a[1..], b);
      assert [a[0]] + a[1..] == a;
    }
  }

  /** Splitting a join of space-free pieces gives the pieces back. */
  lemma {:induction false} SplitJoin(pieces: seq<string>)
    requires |pieces| >= 1
    requires forall i :: 0 <= i < |pieces| ==> ' ' !in pieces[i]
    ensures Split(Join(pieces)) == pieces
  {
    if |pieces| == 1 {
      SplitNoSpace(pieces[0]);
    } else {
      SplitJoin(pieces[1..]);
      SplitAfterPiece(pieces[0], Join(pieces[1..]));
    }
  }

  /** `word.charAt(0).toUpperCase() + word.slice(1)`. A first character outside
      the Basic Multilingual Plane is a surrogate pair: `charAt(0)` yields its
      lone high half, which upper-casing leaves alone, so the word is unchanged. */
  function Capitalize(word: string, upper: char -> string): string {
    if word == [] then []
    else if word[0] as int > 0xFFFF then word
    else upper(word[0]) + word[1..]
  }

  function CapitalizeAll(pieces: seq<string>, upper: char -> string): (r: seq<string>)
    ensures |r| == |pieces|
    ensures forall i :: 0 <= i < |pieces| ==> r[i] == Capitalize(pieces[i], upper)
  {
    seq(|pieces|, i requires 0 <= i < |pieces| => Capitalize(pieces[i], upper))
  }

  /** Joining pieces of the same lengths gives strings of the same length. */
  lemma {:induction false} JoinLength(a: seq<string>, b: seq<string>)
    requires |a| == |b| >= 1
    requires forall i :: 0 <= i < |a| ==> |a[i]| == |b[i]|
    ensures |Join(a)| == |Join(b)|
  {
    if |a| > 1 {
      JoinLength(a[1..], b[1..]);
    }
  }

  /** Upper-casing maps the first character of every piece it touches (a
      non-empty piece led by a BMP character) to exactly one character. */
  predicate HeadsUpperToOne(pieces: seq<string>, upper: char -> string) {
    forall i :: 0 <= i < |pieces| && pieces[i] != [] && pieces[i][0] as int <= 0xFFFF ==> |upper(pieces[i][0])| == 1
  }

  /** Capitalising every piece keeps the text's length when each first
      character that is upper-cased stays one character. */
  lemma CapitalizeKeepsLength(text: string, upper: char -> string)
    ensures HeadsUpperToOne(Split(text), upper) ==> |Join(CapitalizeAll(Split(text), upper))| == |text|
  {
    var pieces := Split(text);
    if HeadsUpperToOne(pieces, upper) {
      var caps := CapitalizeAll(pieces, upper);
      forall i | 0 <= i < |caps| ensures |caps[i]| == |pieces[i]| {
        if pieces[i] != [] && pieces[i][0] as int <= 0xFFFF {
          assert |upper(pieces[i][0])| == 1;
        }
      }
      JoinSplit(text);
      JoinLength(caps, pieces);
    }
  }

  /** `formatLabel(text)`: empty text gives the empty label, and the length is
      kept when each upper-cased first character stays one character (it does
      not for `ß`, which `toUpperCase` turns into `SS`). */
  function FormatLabel(text: string, upper: char -> string): (r: string)
    ensures text == [] ==> r == []
    ensures HeadsUpperToOne(Split(text), upper) ==> |r| == |text|
  {
    if text == [] then []
    else
      CapitalizeKeepsLength(text, upper);
      Join(CapitalizeAll(Split(text), upper))
  }

  /** The label keeps its space-separated pieces: as many as before, each with
      only its first character upper-cased and its tail unchanged, provided
      upper-casing yields no space from a character that is not one. */
  lemma LabelPieces(text: string, upper: char -> string)
    requires text != []
    requires forall c :: c != ' ' ==> ' ' !in upper(c)
    ensures var out := Split(FormatLabel(text, upper));
      var pieces := Split(text);
      |out| == |pieces| &&
      forall i :: 0 <= i < |pieces| ==>
        (pieces[i] == [] ==> out[i] == []) &&
        (pieces[i] != [] && pieces[i][0] as int <= 0xFFFF ==> out[i] == upper(pieces[i][0]) + pieces[i][1..]) &&
        (pieces[i] != [] && pieces[i][0] as int > 0xFFFF ==> out[i] == pieces[i])
  {
    var pieces := Split(text);
    var caps := CapitalizeAll(pieces, upper);
    forall i | 0 <= i < |caps| ensures ' ' !in caps[i] {
      if pieces[i] != [] && pieces[i][0] as int <= 0xFFFF {
        assert pieces[i][0] != ' ';
        assert ' ' !in pieces[i][1..];
      }
    }
    SplitJoin(caps);
  }

  /** A label that is already capitalised, or has nothing to capitalise, is
      kept as it is. */
  lemma LabelFixedPoint(text: string, upper: char -> string)
    requires forall i :: 0 <= i < |Split(text)| && Split(text)[i] != [] && Split(text)[i][0] as int <= 0xFFFF ==>
               upper(Split(text)[i][0]) == [Split(text)[i][0]]
    ensures FormatLabel(text, upper) == text
  {
    if text != [] {
      var pieces := Split(text);
      forall i | 0 <= i < |pieces| ensures Capitalize(pieces[i], upper) == pieces[i] {
        if pieces[i] != [] && pieces[i][0] as int <= 0xFFFF {
          assert [pieces[i][0]] + pieces[i][1..] == pieces[i];
        }
      }
      assert CapitalizeAll(pieces, upper) == pieces;
      JoinSplit(text);
    }
  }

  // ---- links ----

  datatype LinkItem = LinkItem(caption: string, href: string)

  const CategoryRoute := "/the-loai/"
  const CountryRoute := "/quoc-gia/"

  /** The items of one option list: the formatted name linked to `{route}{slug}`. */
  function OptionItems(options: seq<FilterOption>, route: string, upper: char -> string): (items: seq<LinkItem>)
    ensures |items| == |options|
    ensures forall i :: 0 <= i < |options| ==>
      items[i].caption == FormatLabel(options[i].name, upper) &&
      |items[i].href| >= |route| && items[i].href[..|route|] == route && items[i].href[|route|..] == options[i].slug
  {
    seq(|options|, i requires 0 <= i < |options| =>
      LinkItem(FormatLabel(options[i].name, upper), route + options[i].slug))
  }

  /** The year items: the year in decimal linked to `/nam/{year}`. */
  function YearItems(years: seq<int>): (items: seq<LinkItem>)
    ensures |items| == |years|
    ensures forall i :: 0 <= i < |years| ==> items[i].href == YearHref(years[i]) && ParseInt(items[i].caption) == Some(years[i])
  {
    ParseIntInvertsToString();
    seq(|years|, i requires 0 <= i < |years| => LinkItem(IntToString(years[i]), YearHref(years[i])))
  }

  /** The `years` memo: twelve years from `currentYear` down. */
  function ExplorerYears(currentYear: int): seq<int> {
    GenerateYears(currentYear, 12)
  }

  lemma ExplorerYearsShape(currentYear: int)
    ensures |ExplorerYears(currentYear)| == 12
    ensures ExplorerYears(currentYear)[0] == currentYear && ExplorerYears(currentYear)[11] == currentYear - 11
    ensures forall i, j :: 0 <= i < j < 12 ==> ExplorerYears(currentYear)[i] > ExplorerYears(currentYear)[j]
  {
    YearsShape(currentYear, 12);
  }

  /** Options with different slugs never share a link, and a category link never
      equals a country link. */
  lemma HrefsDistinct(a: FilterOption, b: FilterOption, upper: char -> string)
    ensures a.slug != b.slug ==> OptionItems([a], CategoryRoute, upper)[0].href != OptionItems([b], CategoryRoute, upper)[0].href
    ensures OptionItems([a], CategoryRoute, upper)[0].href != OptionItems([b], CountryRoute, upper)[0].href
  {
    var ha := OptionItems([a], CategoryRoute, upper)[0].href;
    var hb := OptionItems([b], CountryRoute, upper)[0].href;
    assert ha[1] == CategoryRoute[1] && hb[1] == CountryRoute[1];
  }

  // ---- component state ----

  class FilterExplorerState {
    var categories: seq<FilterOption>
    var countries: seq<FilterOption>
    var loading: bool

    /** The first render: nothing fetched yet, loading. */
    constructor ()
      ensures categories == [] && countries == [] && loading
    {
      categories := [];
      countries := [];
      loading := true;
    }

    /** Whether the "loading filters" placeholder is shown instead of the lists. */
    predicate ShowsLoading()
      reads this
    {
      loading && |categories| == 0 && |countries| == 0
    }

    /** `fetchFilters`: both lists arrive together (`Promise.all`) and are cut to
        twelve; if either request fails neither list changes. Loading ends
        either way. */
    method FetchFilters(fetched: Result<(seq<FilterOption>, seq<FilterOption>)>)
      modifies this
      ensures !loading
      ensures fetched.Ok? ==> categories == TopItems(fetched.value.0) && countries == TopItems(fetched.value.1)
      ensures fetched.Err? ==> categories == old(categories) && countries == old(countries)
    {
      loading := true;
      if fetched.Ok? {
        categories := TopItems(fetched.value.0);
        countries := TopItems(fetched.value.1);
      }
      loading := false;
    }
  }
}
