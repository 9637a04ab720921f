/** The URL helpers of src/url.rs: the domain of a URL and its fragment-free prefix. */
module UrlTools {
  import opened Wrappers
  import opened Strings

  /**
   * The text after the first "://" up to the next '/', the whole remainder
   * when no '/' follows, or the whole input when there is no "://".
   */
  function Domain(url: string): (r: string)
    ensures !Contains(url, "://") ==> r == url
    ensures Contains(url, "://") ==> '/' !in r
    ensures Contains(url, r)
  {
    match SplitOnce(url, "://")
    case None =>
      assert OccursAt(url, url, 0);
      url
    case Some((scheme, rest)) =>
      assert OccursAt(url, rest, |scheme| + 3);
      match SplitOnce(rest, "/")
      case None =>
        ContainsChar(rest, '/');
        rest
      case Some((host, path)) =>
        ContainsChar(host, '/');
        assert OccursAt(url, host, |scheme| + 3) by {
          assert url[|scheme| + 3..] == rest;
          assert rest[..|host|] == host;
        }
        host
  }

  /** The text before the first '#', or the whole input. */
  function Prefix(url: string): (r: string)
    ensures r <= url
    ensures '#' !in r
    ensures '#' !in url ==> r == url
    ensures '#' in url ==> |r| < |url| && url[|r|] == '#'
  {
    match SplitOnce(url, "#")
    case None =>
      ContainsChar(url, '#');
      url
    case Some((before, _)) =>
      ContainsChar(before, '#');
      assert url == before + "#" + url[|before| + 1..];
      before
  }

  /** Cutting at the first '#' twice is cutting once. */
  lemma PrefixIdempotent(url: string)
    ensures Prefix(Prefix(url)) == Prefix(url)
  {
  }

  /** Every way of writing a URL as scheme "://" host path determines `Domain`. */
  lemma {:induction false} DomainOfParts(scheme: string, host: string, path: string)
    requires !Contains(scheme, "://")
    requires '/' !in host
    requires path == [] || path[0] == '/'
    ensures Domain(scheme + "://" + host + path) == host
  {
    var url := scheme + "://" + host + path;
    var rest := host + path;
    assert url == scheme + "://" + rest;
    FirstSeparator(scheme, rest);
    assert SplitOnce(url, "://") == Some((scheme, rest)) by {
      assert url[..|scheme|] == scheme;
      assert url[|scheme| + 3..] == rest;
    }
    if path == [] {
      assert rest == host;
      ContainsChar(host, '/');
      assert SplitOnce(rest, "/") == None;
    } else {
      FirstSlash(host, path);
      assert rest[..|host|] == host;
    }
  }

  /** The first "://" of `scheme + "://" + rest` is the one after `scheme`. */
  lemma FirstSeparator(scheme: string, rest: string)
    requires !Contains(scheme, "://")
    ensures Find(scheme + "://" + rest, "://") == Some(|scheme|)
  {
    var url := scheme + "://" + rest;
    assert OccursAt(url, "://", |scheme|) by {
      assert url[|scheme|..|scheme| + 3] == "://";
    }
    forall k | 0 <= k < |scheme| ensures !OccursAt(url, "://", k) {
      if k + 3 <= |scheme| {
        assert url[k..k + 3] == scheme[k..k + 3];
        assert !OccursAt(scheme, "://", k);
      } else if k == |scheme| - 1 {
        assert url[k + 1] == ':';
      } else {
        assert url[k + 2] == ':';
      }
    }
    match Find(url, "://")
    case None =>
    case Some(i) =>
  }

  /** The first '/' of `host + path` is the one that starts `path`. */
  lemma FirstSlash(host: string, path: string)
    requires '/' !in host
    requires path != [] && path[0] == '/'
    ensures Find(host + path, "/") == Some(|host|)
  {
    var s := host + path;
    assert OccursAt(s, "/", |host|);
    forall k | 0 <= k < |host| ensures !OccursAt(s, "/", k) {
      assert s[k] == host[k];
    }
    match Find(s, "/")
    case None =>
    case Some(i) =>
  }

  /**
   * The unit tests of `domain`. Each case is stated for every `u` equal to the
   * test's literal, which keeps the verifier from unfolding the search on the
   * literal text character by character.
   */
  lemma DomainExamples()
    ensures forall u :: u == "example.com" ==> Domain(u) == "example.com"
    ensures forall u :: u == "https://example.com" ==> Domain(u) == "example.com"
    ensures forall u :: u == "http://example.com/foo" ==> Domain(u) == "example.com"
    ensures forall u :: u == "https://example.com/foo/bar" ==> Domain(u) == "example.com"
  {
    NoSeparator("example.com");
    NoSeparator("http");
    NoSeparator("https");
    forall u | u == "https://example.com" ensures Domain(u) == "example.com" {
      assert u == "https" + "://" + "example.com" + "";
      DomainOfParts("https", "example.com", "");
    }
    forall u | u == "http://example.com/foo" ensures Domain(u) == "example.com" {
      assert u == "http" + "://" + "example.com" + "/foo";
      DomainOfParts("http", "example.com", "/foo");
    }
    forall u | u == "https://example.com/foo/bar" ensures Domain(u) == "example.com" {
      assert u == "https" + "://" + "example.com" + "/foo/bar";
      DomainOfParts("https", "example.com", "/foo/bar");
    }
  }

  /** A text without ':' has no "://". */
  lemma NoSeparator(s: string)
    requires ':' !in s
    ensures !Contains(s, "://")
  {
    assert forall k :: OccursAt(s, "://", k) ==> s[k] == ':';
  }

  /** The unit tests of `prefix`, stated as `DomainExamples` states its cases. */
  lemma PrefixExamples()
    ensures forall u :: u == "https://example.com" ==> Prefix(u) == "https://example.com"
    ensures forall u :: u == "https://example.com/test" ==> Prefix(u) == "https://example.com/test"
    ensures forall u :: u == "http://example.com#foo" ==> Prefix(u) == "http://example.com"
    ensures forall u :: u == "http://example.com/test#foo" ==> Prefix(u) == "http://example.com/test"
    ensures forall u :: u == "https://example.com#foo#bar" ==> Prefix(u) == "https://example.com"
    ensures forall u :: u == "https://example.com/test/2#foo#bar" ==> Prefix(u) == "https://example.com/test/2"
  {
    forall u | u == "http://example.com#foo" ensures Prefix(u) == "http://example.com" {
      assert u == "http://example.com" + "#" + "foo";
      PrefixOfParts("http://example.com", "foo");
    }
    forall u | u == "http://example.com/test#foo" ensures Prefix(u) == "http://example.com/test" {
      assert u == "http://example.com/test" + "#" + "foo";
      PrefixOfParts("http://example.com/test", "foo");
    }
    forall u | u == "https://example.com#foo#bar" ensures Prefix(u) == "https://example.com" {
      assert u == "https://example.com" + "#" + "foo#bar";
      PrefixOfParts("https://example.com", "foo#bar");
    }
    forall u | u == "https://example.com/test/2#foo#bar" ensures Prefix(u) == "https://example.com/test/2" {
      assert u == "https://example.com/test/2" + "#" + "foo#bar";
      PrefixOfParts("https://example.com/test/2", "foo#bar");
    }
  }

  /** `Prefix` cuts exactly at the first '#', whatever follows it. */
  lemma PrefixOfParts(before: string, fragment: string)
    requires '#' !in before
    ensures Prefix(before + "#" + fragment) == before
  {
    var url := before + "#" + fragment;
    assert url[|before|] == '#';
    assert url[..|before|] == before;
  }
}
