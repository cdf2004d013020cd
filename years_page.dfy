/** The release-year index (src/app/nam/page.tsx): `generateYears(count)` lists
    the last `count` years, newest first, and each year links to `/nam/{year}`.
    `new Date().getFullYear()` is the parameter `currentYear`. */
module YearsPage {
  import opened Base
  import opened JsText

  /** `Array.from({ length: count })` takes a negative length as 0. */
  function ArrayLength(count: int): nat {
    if count < 0 then 0 else count
  }

  /** `generateYears(count)`: entry `i` is `currentYear - i`. */
  function GenerateYears(currentYear: int, count: int): (years: seq<int>)
    ensures |years| == ArrayLength(count)
  {
    seq(ArrayLength(count), i => currentYear - i)
  }

  const DefaultYearCount := 30
  const PageYearCount := 40

  /** `generateYears()` with the count left out, and the list the page shows. */
  function DefaultYears(currentYear: int): seq<int> {
    GenerateYears(currentYear, DefaultYearCount)
  }

  function PageYears(currentYear: int): seq<int> {
    GenerateYears(currentYear, PageYearCount)
  }

  /** The list starts at the current year and steps down by exactly one, so it is
      strictly decreasing and holds no year twice; it ends `count - 1` years back. */
  lemma YearsShape(currentYear: int, count: int)
    ensures var ys := GenerateYears(currentYear, count);
      (count > 0 ==> ys[0] == currentYear && ys[|ys| - 1] == currentYear - count + 1) &&
      (forall i :: 0 < i < |ys| ==> ys[i] == ys[i - 1] - 1) &&
      (forall i, j :: 0 <= i < j < |ys| ==> ys[i] > ys[j]) &&
      (forall y :: y in ys <==> currentYear - ArrayLength(count) < y <= currentYear)
  {
    var ys := GenerateYears(currentYear, count);
    forall y | currentYear - ArrayLength(count) < y <= currentYear ensures y in ys {
      assert ys[currentYear - y] == y;
    }
  }

  /** The page lists 40 years, the default is 30. */
  lemma PageListsForty(currentYear: int)
    ensures |PageYears(currentYear)| == 40 && |DefaultYears(currentYear)| == 30
    ensures DefaultYears(currentYear) == PageYears(currentYear)[..30]
  {
  }

  /** The link of a year. */
  function YearHref(year: int): (href: string)
    ensures |href| > 5 && href[..5] == "/nam/"
  {
    "/nam/" + IntToString(year)
  }

  /** The year reads back from its link, so different years have different links. */
  lemma YearHrefReadBack(year: int)
    ensures ParseInt(YearHref(year)[5..]) == Some(year)
  {
    assert YearHref(year)[5..] == IntToString(year);
    ParseIntToString(year);
  }

  lemma YearHrefInjective(a: int, b: int)
    requires YearHref(a) == YearHref(b)
    ensures a == b
  {
    YearHrefReadBack(a);
    YearHrefReadBack(b);
  }
}
