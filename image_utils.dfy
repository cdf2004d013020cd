/** How a poster or thumbnail reference becomes the URL an `<img>` loads
    (src/utils/imageUtils.ts): a placeholder for blank input, pass-through for
    URLs already proxied or already on the media host, and otherwise the media
    host prefixed where needed and the result wrapped in the WebP proxy. */
module ImageUtils {
  import opened Base
  import opened JsText
  import opened UriEncoding
  import opened MovieService
  import opened ImageAssets

  /** The placeholder holds no `.`, so it never carries the proxy marker. */
  lemma PlaceholderUnproxied()
    ensures !Contains(Placeholder, ProxyMarker)
    ensures Placeholder[0] == 'd'
  {
    PlaceholderChars();
    assert ProxyMarker[7] == '.';
    LacksCharNotContains(Placeholder, ProxyMarker, '.');
  }

  /** The media host, with and without TLS. */
  const MediaHost := "https://phimimg.com/"
  const MediaHostPlain := "http://phimimg.com/"

  /** `!imageUrl || imageUrl.trim() === ''`. */
  predicate Blank(imageUrl: Option<string>) {
    imageUrl.None? || Trim(imageUrl.value) == []
  }

  /** `imageUrl.replace(/^\//, '')`: at most one leading slash goes. */
  function StripLeadingSlash(s: string): (r: string)
    ensures s != [] && s[0] == '/' ==> r == s[1..]
    ensures s == [] || s[0] != '/' ==> r == s
  {
    if s != [] && s[0] == '/' then s[1..] else s
  }

  /** The absolute URL handed to the proxy (`fullUrl`): an `http` or `https`
      URL is kept, anything else is placed on the media host. */
  function FullUrl(imageUrl: string): (r: string)
    ensures StartsWith(r, "http://") || StartsWith(r, "https://")
    ensures StartsWith(imageUrl, "http://") || StartsWith(imageUrl, "https://") ==> r == imageUrl
    ensures !StartsWith(imageUrl, "http://") && !StartsWith(imageUrl, "https://") ==> StartsWith(r, MediaHost)
  {
    if StartsWith(imageUrl, "upload/") || StartsWith(imageUrl, "/upload/") then
      MediaHost + StripLeadingSlash(imageUrl)
    else if !StartsWith(imageUrl, "http://") && !StartsWith(imageUrl, "https://") then
      MediaHost + imageUrl
    else
      imageUrl
  }

  /** `getOptimizedImageUrl(imageUrl)`. */
  function GetOptimizedImageUrl(imageUrl: Option<string>): (r: string)
    ensures r != []
    ensures Blank(imageUrl) ==> r == Placeholder
    ensures !Blank(imageUrl) && Contains(imageUrl.value, ProxyMarker) ==> r == imageUrl.value
    ensures !Blank(imageUrl) && (StartsWith(imageUrl.value, MediaHost) || StartsWith(imageUrl.value, MediaHostPlain)) ==>
              r == imageUrl.value
  {
    if Blank(imageUrl) then Placeholder
    else
      var u := imageUrl.value;
      if Contains(u, ProxyMarker) then u
      else if StartsWith(u, MediaHost) || StartsWith(u, MediaHostPlain) then u
      else ConvertImageToWebP(FullUrl(u))
  }

  /** Whether a non-blank URL is rewritten: it neither carries the proxy marker
      nor sits on the media host. */
  predicate Rewritten(u: string) {
    !Contains(u, ProxyMarker) && !StartsWith(u, MediaHost) && !StartsWith(u, MediaHostPlain)
  }

  /** Every proxy URL carries the proxy marker. */
  lemma ProxiedHasMarker(u: string)
    ensures Contains(ConvertImageToWebP(u), ProxyMarker)
    ensures !AllSpace(ConvertImageToWebP(u))
  {
    var r := ConvertImageToWebP(u);
    assert r[..|ProxyPrefix|] == ProxyPrefix;
    Split3("https://", ProxyMarker, "?url=");
    assert r[8..8 + |ProxyMarker|] == ProxyPrefix[8..8 + |ProxyMarker|] == ProxyMarker;
    assert OccursAt(r, ProxyMarker, 8);
    assert r[0] == ProxyPrefix[0] == 'h';
  }

  /** A rewritten URL decodes back, from the proxy's `url` parameter, to the
      absolute URL it was derived from. */
  lemma RewrittenDecodesBack(u: string)
    requires Trim(u) != [] && Rewritten(u)
    ensures var r := GetOptimizedImageUrl(Some(u));
      StartsWith(r, ProxyPrefix) && DecodeUriComponent(r[|ProxyPrefix|..]) == Some(FullUrl(u))
  {
  }

  /** A string led by a non-space character is not blank. */
  lemma LedByNonSpace(u: string)
    requires u != [] && !IsJsSpace(u[0])
    ensures !Blank(Some(u))
  {
    TrimEmptyIff(u);
  }

  /** A string led by anything but `h`, `u` or `/` has no scheme, is not on the
      media host and is not an upload path. */
  lemma NoKnownPrefix(u: string)
    requires u != [] && u[0] != 'h' && u[0] != 'u' && u[0] != '/'
    ensures !StartsWith(u, MediaHost) && !StartsWith(u, MediaHostPlain)
    ensures !StartsWith(u, "http://") && !StartsWith(u, "https://")
    ensures !StartsWith(u, "upload/") && !StartsWith(u, "/upload/")
  {
    if StartsWith(u, MediaHost) { StartsWithHead(u, MediaHost); }
    if StartsWith(u, MediaHostPlain) { StartsWithHead(u, MediaHostPlain); }
    if StartsWith(u, "http://") { StartsWithHead(u, "http://"); }
    if StartsWith(u, "https://") { StartsWithHead(u, "https://"); }
    if StartsWith(u, "upload/") { StartsWithHead(u, "upload/"); }
    if StartsWith(u, "/upload/") { StartsWithHead(u, "/upload/"); }
  }

  /** The placeholder is not a proxy URL, not on the media host and has no
      scheme, so resolving it again rewrites it. */
  lemma PlaceholderNotFixed()
    ensures GetOptimizedImageUrl(Some(Placeholder)) == ConvertImageToWebP(MediaHost + Placeholder)
    ensures GetOptimizedImageUrl(Some(Placeholder)) != Placeholder
  {
    PlaceholderUnproxied();
    var p := Placeholder;
    NoKnownPrefix(p);
    LedByNonSpace(p);
    SchemelessGetsHost(p);
    var r := ConvertImageToWebP(MediaHost + p);
    assert r[0] == ProxyPrefix[0] == 'h';
  }

  /** The result is the placeholder exactly when the input is blank. */
  lemma PlaceholderIffBlank(imageUrl: Option<string>)
    ensures GetOptimizedImageUrl(imageUrl) == Placeholder <==> Blank(imageUrl)
  {
    if !Blank(imageUrl) {
      var u := imageUrl.value;
      var p := Placeholder;
      PlaceholderUnproxied();
      if Contains(u, ProxyMarker) {
        assert u != p;
      } else if StartsWith(u, MediaHost) {
        StartsWithHead(u, MediaHost);
      } else if StartsWith(u, MediaHostPlain) {
        StartsWithHead(u, MediaHostPlain);
      } else {
        assert ConvertImageToWebP(FullUrl(u))[0] == ProxyPrefix[0] == 'h';
      }
    }
  }

  /** Resolving twice is resolving once, for every non-blank input: what comes
      out is either the input itself or a proxy URL, which passes through. */
  lemma Idempotent(u: string)
    requires !Blank(Some(u))
    ensures GetOptimizedImageUrl(Some(GetOptimizedImageUrl(Some(u)))) == GetOptimizedImageUrl(Some(u))
  {
    if Rewritten(u) {
      var r := ConvertImageToWebP(FullUrl(u));
      ProxiedHasMarker(FullUrl(u));
      TrimEmptyIff(r);
    }
  }

  /** `upload/x` and `/upload/x` resolve alike, to the proxy of
      `https://phimimg.com/upload/x`. */
  lemma UploadPathsAgree(rest: string)
    requires !Contains("/upload/" + rest, ProxyMarker)
    ensures GetOptimizedImageUrl(Some("upload/" + rest)) == ConvertImageToWebP(MediaHost + "upload/" + rest)
    ensures GetOptimizedImageUrl(Some("/upload/" + rest)) == ConvertImageToWebP(MediaHost + "upload/" + rest)
  {
    var plain, slashed := "upload/" + rest, "/upload/" + rest;
    assert slashed[1..] == plain;
    assert slashed[0] == '/' && plain[0] == 'u';
    assert plain[..7] == "upload/" && slashed[..8] == "/upload/";
    assert MediaHost + plain == MediaHost + "upload/" + rest;
    NotContainsTail(slashed, ProxyMarker);
    UploadPathResolves(plain, plain);
    UploadPathResolves(slashed, plain);
  }

  /** One upload path: the media host and the path without its leading slash. */
  lemma UploadPathResolves(u: string, stripped: string)
    requires !Contains(u, ProxyMarker)
    requires StartsWith(u, "upload/") || StartsWith(u, "/upload/")
    requires stripped == StripLeadingSlash(u)
    ensures GetOptimizedImageUrl(Some(u)) == ConvertImageToWebP(MediaHost + stripped)
  {
    if StartsWith(u, "upload/") { StartsWithHead(u, "upload/"); } else { StartsWithHead(u, "/upload/"); }
    if StartsWith(u, MediaHost) { StartsWithHead(u, MediaHost); }
    if StartsWith(u, MediaHostPlain) { StartsWithHead(u, MediaHostPlain); }
    LedByNonSpace(u);
  }

  /** A path with no scheme that is not an upload path gets the media host
      prefixed as it is, leading slash included. */
  lemma SchemelessGetsHost(u: string)
    requires Trim(u) != [] && Rewritten(u)
    requires !StartsWith(u, "upload/") && !StartsWith(u, "/upload/")
    requires !StartsWith(u, "http://") && !StartsWith(u, "https://")
    ensures GetOptimizedImageUrl(Some(u)) == ConvertImageToWebP(MediaHost + u)
  {
  }

  /** Any other absolute URL is proxied as it is. */
  lemma AbsoluteProxiedAsIs(u: string)
    requires Trim(u) != [] && Rewritten(u)
    requires StartsWith(u, "http://") || StartsWith(u, "https://")
    ensures GetOptimizedImageUrl(Some(u)) == ConvertImageToWebP(u)
  {
    if StartsWith(u, "http://") { StartsWithHead(u, "http://"); } else { StartsWithHead(u, "https://"); }
    if StartsWith(u, "upload/") { StartsWithHead(u, "upload/"); }
    if StartsWith(u, "/upload/") { StartsWithHead(u, "/upload/"); }
    assert FullUrl(u) == u;
  }

  /** `getMovieImage(movie)`: the poster when it is a non-empty string, else the
      thumbnail (`poster_url || thumb_url`). */
  function GetMovieImage(posterUrl: Option<string>, thumbUrl: Option<string>): (r: string)
    ensures posterUrl.Some? && posterUrl.value != [] ==> r == GetOptimizedImageUrl(posterUrl)
    ensures posterUrl.None? || posterUrl.value == [] ==> r == GetOptimizedImageUrl(thumbUrl)
  {
    GetOptimizedImageUrl(if posterUrl.Some? && posterUrl.value != [] then posterUrl else thumbUrl)
  }

  /** Only when both images are missing or blank does a card show the placeholder. */
  lemma MovieImagePlaceholder(posterUrl: Option<string>, thumbUrl: Option<string>)
    ensures GetMovieImage(posterUrl, thumbUrl) == Placeholder <==>
      (if posterUrl.Some? && posterUrl.value != [] then Blank(posterUrl) else Blank(thumbUrl))
  {
    PlaceholderIffBlank(posterUrl);
    PlaceholderIffBlank(thumbUrl);
  }
}
