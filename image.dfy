/** `handleImage` (src/utils/image.js): Sina-hosted images go through a proxy. */
module Image {
  import opened Options
  import opened Strings

  /** The proxy that Sina image URLs are routed through. */
  const ProxyPrefix: string := "https://image.baidu.com/search/down?url="

  /** The host fragment that marks a Sina image URL. */
  const SinaMarker: string := "sinaimg"

  /** `if (url)`: a URL that is present and not empty. */
  predicate IsTruthy(url: Option<string>) {
    url.Some? && url.value != ""
  }

  /** The address to load an image from; `None` stands for `null` or `undefined`. */
  function HandleImage(url: Option<string>): (r: string)
    ensures !IsTruthy(url) ==> r == ""
    ensures IsTruthy(url) && Contains(url.value, SinaMarker) ==> r == ProxyPrefix + url.value
    ensures IsTruthy(url) && !Contains(url.value, SinaMarker) ==> r == url.value
  {
    if IsTruthy(url) then
      if IndexOf(url.value, SinaMarker) != -1 then ProxyPrefix + url.value else url.value
    else ""
  }

  /** For a present, non-empty URL the result ends with the URL, and it mentions
      the Sina host exactly when the URL does. */
  lemma HandleImageKeepsUrl(url: string)
    requires url != ""
    ensures var r := HandleImage(Some(url));
      && |url| <= |r| && r[|r| - |url|..] == url
      && (Contains(r, SinaMarker) <==> Contains(url, SinaMarker))
  {
    var r := HandleImage(Some(url));
    if Contains(url, SinaMarker) {
      ContainsAppend(ProxyPrefix, url, SinaMarker);
      assert r[|r| - |url|..] == url;
    }
  }

  /** A rewritten URL is rewritten again: `handleImage` is not idempotent on
      Sina URLs, so callers must apply it once. */
  lemma HandleImageTwice(url: string)
    requires url != "" && Contains(url, SinaMarker)
    ensures HandleImage(Some(HandleImage(Some(url)))) == ProxyPrefix + ProxyPrefix + url
  {
    ContainsAppend(ProxyPrefix, url, SinaMarker);
  }
}
