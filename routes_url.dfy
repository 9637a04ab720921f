/**
 * The private URL helpers of src/server/routes.rs. `UrlPrefix` is the dedup
 * key; `Domain` is the highlight key and differs from `UrlTools.Domain` when
 * no '/' follows the "://".
 */
module RoutesUrl {
  import opened Wrappers
  import opened Strings
  import UrlTools

  /** The text before the first '#', or the whole input. */
  function UrlPrefix(url: string): (r: string)
    ensures r <= url && '#' !in r
    ensures '#' in url ==> |r| < |url| && url[|r|] == '#'
  {
    match SplitOnce(url, "#")
    case None =>
      ContainsChar(url, '#');
      url
    case Some((before, _)) =>
      ContainsChar(before, '#');
      assert url == before + "#" + url[|before| + 1..];
      before
  }

  /**
   * The text between the first "://" and the next '/'; the whole input when
   * there is no "://" or no '/' after it.
   */
  function Domain(url: string): (r: string)
    ensures r == url || '/' !in r
    ensures Contains(url, r)
  {
    match SplitOnce(url, "://")
    case None =>
      assert OccursAt(url, url, 0);
      url
    case Some((scheme, rest)) =>
      match SplitOnce(rest, "/")
      case None =>
        assert OccursAt(url, url, 0);
        url
      case Some((host, _)) =>
        ContainsChar(host, '/');
        assert OccursAt(url, host, |scheme| + 3) by {
          assert url[|scheme| + 3..] == rest;
          assert rest[..|host|] == host;
        }
        host
  }

  /** The dedup key is the same cut as the URL module's `prefix`. */
  lemma UrlPrefixIsPrefix(url: string)
    ensures UrlPrefix(url) == UrlTools.Prefix(url)
  {
  }

  /**
   * The two `domain` functions agree except on a URL with a "://" but no '/'
   * after it, where this one returns the whole URL and the URL module's
   * returns the text after "://".
   */
  lemma DomainAgainstUrlTools(url: string)
    ensures SplitOnce(url, "://").None? ==> Domain(url) == UrlTools.Domain(url) == url
    ensures SplitOnce(url, "://").Some? && Contains(SplitOnce(url, "://").value.1, "/") ==>
              Domain(url) == UrlTools.Domain(url)
    ensures SplitOnce(url, "://").Some? && !Contains(SplitOnce(url, "://").value.1, "/") ==>
              Domain(url) == url && UrlTools.Domain(url) == SplitOnce(url, "://").value.1 &&
              Domain(url) != UrlTools.Domain(url)
  {
  }

  /** A URL written as scheme "://" host path, with a non-empty path, has `host` as its domain. */
  lemma DomainOfParts(scheme: string, host: string, path: string)
    requires !Contains(scheme, "://")
    requires '/' !in host
    requires path != [] && path[0] == '/'
    ensures Domain(scheme + "://" + host + path) == host
  {
    var url := scheme + "://" + host + path;
    var rest := host + path;
    assert url == scheme + "://" + rest;
    UrlTools.FirstSeparator(scheme, rest);
    assert SplitOnce(url, "://") == Some((scheme, rest)) by {
      assert url[..|scheme|] == scheme;
      assert url[|scheme| + 3..] == rest;
    }
    UrlTools.FirstSlash(host, path);
    assert SplitOnce(rest, "/") == Some((host, path[1..])) by {
      assert rest[..|host|] == host;
      assert rest[|host| + 1..] == path[1..];
    }
  }

  /** A URL written as scheme "://" host, with no path, is its own domain. */
  lemma DomainWithoutPath(scheme: string, host: string)
    requires !Contains(scheme, "://")
    requires '/' !in host
    ensures Domain(scheme + "://" + host) == scheme + "://" + host
  {
    var url := scheme + "://" + host;
    UrlTools.FirstSeparator(scheme, host);
    assert url[..|scheme|] == scheme && url[|scheme| + 3..] == host;
    ContainsChar(host, '/');
  }

  /** Examples of the difference: the same host, with and without a path. */
  lemma DomainExamples()
    ensures forall u :: u == "https://example.com/foo" ==> Domain(u) == "example.com"
    ensures forall u :: u == "https://example.com" ==> Domain(u) == "https://example.com"
  {
    UrlTools.NoSeparator("https");
    forall u | u == "https://example.com/foo" ensures Domain(u) == "example.com" {
      assert u == "https" + "://" + "example.com" + "/foo";
      DomainOfParts("https", "example.com", "/foo");
    }
    forall u | u == "https://example.com" ensures Domain(u) == "https://example.com" {
      assert u == "https" + "://" + "example.com";
      DomainWithoutPath("https", "example.com");
    }
  }
}
