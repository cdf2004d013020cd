/** The image placeholder of src/utils/imageUtils.ts: a grey 400x600 SVG reading
    "Phim Image", as a base64 data URL. The base64 text is held in nine pieces so
    that facts about its characters are checked one piece at a time. */
module ImageAssets {
  const Svg0 := "PHN2ZyB3aWR0aD0iNDAwIiBoZWlnaHQ9IjYw"
  const Svg1 := "MCIgeG1sbnM9Imh0dHA6Ly93d3cudzMub3Jn"
  const Svg2 := "LzIwMDAvc3ZnIj48cmVjdCB3aWR0aD0iNDAw"
  const Svg3 := "IiBoZWlnaHQ9IjYwMCIgZmlsbD0iIzMzMzMz"
  const Svg4 := "MyIvPjx0ZXh0IHg9IjUwJSIgeT0iNTAlIiBm"
  const Svg5 := "b250LWZhbWlseT0iQXJpYWwiIGZvbnQtc2l6"
  const Svg6 := "ZT0iMjAiIGZpbGw9IiM5OTk5OTkiIHRleHQt"
  const Svg7 := "YW5jaG9yPSJtaWRkbGUiIGR5PSIuM2VtIj5Q"
  const Svg8 := "aGltIEltYWdlPC90ZXh0Pjwvc3ZnPg=="

  const Placeholder := "data:image/svg+xml;base64," +
    Svg0 + Svg1 + Svg2 + Svg3 + Svg4 + Svg5 + Svg6 + Svg7 + Svg8

  // One dot-free fact per piece; PlaceholderChars combines them.
  lemma Svg0LacksDot() ensures '.' !in Svg0 {}
  lemma Svg1LacksDot() ensures '.' !in Svg1 {}
  lemma Svg2LacksDot() ensures '.' !in Svg2 {}
  lemma Svg3LacksDot() ensures '.' !in Svg3 {}
  lemma Svg4LacksDot() ensures '.' !in Svg4 {}
  lemma Svg5LacksDot() ensures '.' !in Svg5 {}
  lemma Svg6LacksDot() ensures '.' !in Svg6 {}
  lemma Svg7LacksDot() ensures '.' !in Svg7 {}
  lemma Svg8LacksDot() ensures '.' !in Svg8 {}

  /** The placeholder holds no `.` and starts with `d`. */
  lemma PlaceholderChars()
    ensures '.' !in Placeholder
    ensures Placeholder[0] == 'd'
  {
    Svg0LacksDot();
    Svg1LacksDot();
    Svg2LacksDot();
    Svg3LacksDot();
    Svg4LacksDot();
    Svg5LacksDot();
    Svg6LacksDot();
    Svg7LacksDot();
    Svg8LacksDot();
    assert '.' !in "data:image/svg+xml;base64,";
  }
}
