/**
 * Summary extraction of src/fetch/extract.rs. The quick_xml reader is given
 * as the sequence of events it would produce from the markup (with
 * whitespace-only text already trimmed away and end-tag names unchecked);
 * entity unescaping and UTF-8 decoding are parameters.
 */
module Extract {
  import opened Wrappers
  import opened Strings
  import opened FeedModel

  newtype byte = x: int | 0 <= x < 256

  type Bytes = seq<byte>

  /** One item of a start tag's attribute iterator; `Malformed` is an iterator error. */
  datatype AttrItem = Attr(key: Bytes, value: Bytes) | Malformed

  /**
   * The reader's events. `Other` stands for every event the code ignores:
   * end tags, self-closing tags, comments, CDATA, declarations. `ReadError`
   * is a failed read.
   */
  datatype Event = Start(name: Bytes, attrs: seq<AttrItem>) | Text(raw: Bytes) | Other | Eof | ReadError

  datatype ExtractError = ReadFailed | AttributeFailed | UnescapeFailed | Utf8Failed

  /** The library functions the extractor calls, each partial. */
  datatype Codec = Codec(
    tokenize: string -> seq<Event>,
    unescapeText: Bytes -> Option<string>,
    decodeAttr: Bytes -> Option<string>,
    utf8: Bytes -> Option<string>)

  type Outcome = Result<Option<string>, ExtractError>

  const AnchorName: Bytes := [97]
  const HrefKey: Bytes := [104, 114, 101, 102]
  const TitleKey: Bytes := [116, 105, 116, 108, 101]

  /** `text/html`, compared as the mediatype library compares names: ignoring ASCII case. */
  predicate IsHtml(t: MediaType)
  {
    var e := t.Essence();
    AsciiLower(e.ty) == "text" && AsciiLower(e.subty) == "html" && e.suffix.None? && e.params == []
  }

  function AsciiLower(s: string): (r: string)
    ensures |r| == |s|
    ensures forall i :: 0 <= i < |s| ==> r[i] == if 'A' <= s[i] <= 'Z' then (s[i] as int + 32) as char else s[i]
  {
    if s == [] then []
    else [if 'A' <= s[0] <= 'Z' then (s[0] as int + 32) as char else s[0]] + AsciiLower(s[1..])
  }

  // ---------------------------------------------------------------------
  // Scanning an event stream until the first event that decides the result

  /**
   * The first index at which `verdict` decides, or `|events|` when none does
   * (the end of the stream reads as `Eof`).
   */
  function FirstDecisive(events: seq<Event>, verdict: Event -> Option<Outcome>): (k: nat)
    ensures k <= |events|
    ensures forall j :: 0 <= j < k ==> verdict(events[j]).None?
    ensures k < |events| ==> verdict(events[k]).Some?
  {
    if events == [] then 0
    else if verdict(events[0]).Some? then 0
    else 1 + FirstDecisive(events[1..], verdict)
  }

  /** The loop over `read_event`: the first decisive event's outcome, else `Ok(None)`. */
  function Scan(events: seq<Event>, verdict: Event -> Option<Outcome>): (r: Outcome)
    ensures FirstDecisive(events, verdict) == |events| ==> r == Ok(None)
    ensures FirstDecisive(events, verdict) < |events| ==>
              r == verdict(events[FirstDecisive(events, verdict)]).value
  {
    if events == [] then Ok(None)
    else if verdict(events[0]).Some? then verdict(events[0]).value
    else Scan(events[1..], verdict)
  }

  // ---------------------------------------------------------------------
  // summary_from_html_summary

  /** What one event decides for the summary heuristic: the first text wins. */
  function SummaryVerdict(codec: Codec, e: Event): (r: Option<Outcome>)
    ensures r.Some? <==> e.Text? || e.Eof? || e.ReadError?
    ensures e.Eof? ==> r == Some(Ok(None))
    ensures e.ReadError? ==> r == Some(Err(ReadFailed))
    ensures e.Text? && codec.unescapeText(e.raw).None? ==> r == Some(Err(UnescapeFailed))
    ensures e.Text? && codec.unescapeText(e.raw).Some? ==> r == Some(Ok(codec.unescapeText(e.raw)))
  {
    match e
    case Eof => Some(Ok(None))
    case ReadError => Some(Err(ReadFailed))
    case Text(raw) =>
      (match codec.unescapeText(raw)
       case None => Some(Err(UnescapeFailed))
       case Some(t) => Some(Ok(Some(t))))
    case _ => None
  }

  function HtmlSummary(codec: Codec, events: seq<Event>): Outcome
  {
    Scan(events, e => SummaryVerdict(codec, e))
  }

  /** `summary_from_html_summary`, over the reader's events. */
  method SummaryFromHtmlSummary(codec: Codec, events: seq<Event>) returns (r: Outcome)
    ensures r == HtmlSummary(codec, events)
  {
    var i := 0;
    while i < |events|
      invariant 0 <= i <= |events|
      invariant HtmlSummary(codec, events) == Scan(events[i..], e => SummaryVerdict(codec, e))
    {
      assert events[i..][0] == events[i] && events[i..][1..] == events[i + 1..];
      match events[i] {
        case Eof =>
          break;
        case Text(raw) =>
          var text := codec.unescapeText(raw);
          if text.None? {
            return Err(UnescapeFailed);
          }
          return Ok(Some(text.value));
        case ReadError =>
          return Err(ReadFailed);
        case _ =>
      }
      i := i + 1;
    }
    r := Ok(None);
  }

  /**
   * The summary is the unescaped first text event; `None` when the stream
   * ends (or reaches `Eof`) first; an error when a read or the unescaping
   * fails first.
   */
  lemma HtmlSummaryFirstText(codec: Codec, events: seq<Event>, k: nat)
    requires k < |events| && events[k].Text?
    requires forall j :: 0 <= j < k ==> events[j].Start? || events[j].Other?
    ensures HtmlSummary(codec, events) ==
              match codec.unescapeText(events[k].raw)
              case None => Err(UnescapeFailed)
              case Some(t) => Ok(Some(t))
  {
    var v := e => SummaryVerdict(codec, e);
    assert v(events[k]).Some?;
  }

  lemma HtmlSummaryNoText(codec: Codec, events: seq<Event>, k: nat)
    requires k <= |events| && (k < |events| ==> events[k].Eof?)
    requires forall j :: 0 <= j < k ==> events[j].Start? || events[j].Other?
    ensures HtmlSummary(codec, events) == Ok(None)
  {
    var v := e => SummaryVerdict(codec, e);
    assert k < |events| ==> v(events[k]).Some?;
  }

  /** A failed read before any text aborts the summary heuristic. */
  lemma HtmlSummaryReadError(codec: Codec, events: seq<Event>, k: nat)
    requires k < |events| && events[k].ReadError?
    requires forall j :: 0 <= j < k ==> events[j].Start? || events[j].Other?
    ensures HtmlSummary(codec, events) == Err(ReadFailed)
  {
    var v := e => SummaryVerdict(codec, e);
    assert v(events[k]).Some?;
  }

  // ---------------------------------------------------------------------
  // summary_from_html_body

  /**
   * `attr_value`: the decoded, unescaped value; when decoding fails, the raw
   * bytes read as UTF-8; an error only when those bytes are not UTF-8 either.
   */
  function AttrValue(codec: Codec, raw: Bytes): (r: Result<string, ExtractError>)
    ensures r.Err? <==> codec.decodeAttr(raw).None? && codec.utf8(raw).None?
    ensures r.Err? ==> r.error == Utf8Failed
    ensures codec.decodeAttr(raw).Some? ==> r == Ok(codec.decodeAttr(raw).value)
    ensures codec.decodeAttr(raw).None? && codec.utf8(raw).Some? ==> r == Ok(codec.utf8(raw).value)
  {
    match codec.decodeAttr(raw)
    case Some(v) => Ok(v)
    case None =>
      match codec.utf8(raw)
      case Some(v) => Ok(v)
      case None => Err(Utf8Failed)
  }

  /** Length of the scheme `url_path` strips: "http://" or else "https://". */
  function SchemeLength(url: string): nat
  {
    if "http://" <= url then 7 else 8
  }

  /**
   * `url_path`: for an http or https URL with a '/' after its host, the
   * suffix of the URL that starts at that '/'.
   */
  function UrlPath(url: string): (r: Option<string>)
    ensures r.Some? <==> ("http://" <= url || "https://" <= url) && '/' in url[SchemeLength(url)..]
    ensures r.Some? ==> PathOf(url[SchemeLength(url)..], r.value)
  {
    match StripPrefix(url, "http://").Or(StripPrefix(url, "https://"))
    case None => None
    case Some(rest) =>
      assert rest == url[SchemeLength(url)..];
      FindChar(rest, '/');
      match Find(rest, "/")
      case None => None
      case Some(i) =>
        assert rest[..|rest| - |rest[i..]|] == rest[..i];
        Some(rest[i..])
  }

  /** `path` is the part of `rest` from its first '/' on. */
  predicate PathOf(rest: string, path: string)
  {
    0 < |path| <= |rest| && path[0] == '/' && rest[|rest| - |path|..] == path &&
    '/' !in rest[..|rest| - |path|]
  }

  /** An anchor's `href` value refers to the item: equal to it, or to its path. */
  predicate HrefMatches(itemHref: string, href: string)
  {
    href == itemHref || UrlPath(itemHref) == Some(href)
  }

  /** What the attribute loop of one `<a>` tag keeps: a match seen, the last title attribute. */
  datatype AnchorState = AnchorState(found: bool, title: Option<Bytes>)

  /** One attribute of an `<a>` tag. */
  function StepAttr(codec: Codec, itemHref: string, st: AnchorState, a: AttrItem): Result<AnchorState, ExtractError>
  {
    match a
    case Malformed => Err(AttributeFailed)
    case Attr(key, value) =>
      if key == HrefKey then
        match AttrValue(codec, value)
        case Err(e) => Err(e)
        case Ok(href) => Ok(st.(found := st.found || HrefMatches(itemHref, href)))
      else if key == TitleKey then Ok(st.(title := Some(value)))
      else Ok(st)
  }

  /** The attribute loop, from state `st`, stopping at the first error. */
  function ScanAttrs(codec: Codec, itemHref: string, st: AnchorState, attrs: seq<AttrItem>): Result<AnchorState, ExtractError>
    decreases |attrs|
  {
    if attrs == [] then Ok(st)
    else match StepAttr(codec, itemHref, st, attrs[0])
      case Err(e) => Err(e)
      case Ok(st') => ScanAttrs(codec, itemHref, st', attrs[1..])
  }

  /** The outcome of one `<a>` tag: its decoded title if it links to the item and has one. */
  function AnchorTitle(codec: Codec, itemHref: string, attrs: seq<AttrItem>): Outcome
  {
    match ScanAttrs(codec, itemHref, AnchorState(false, None), attrs)
    case Err(e) => Err(e)
    case Ok(st) =>
      if st.found && st.title.Some? then
        match AttrValue(codec, st.title.value)
        case Err(e) => Err(e)
        case Ok(t) => Ok(Some(t))
      else Ok(None)
  }

  /** What one event decides for the body heuristic: a titled link to the item wins. */
  function BodyVerdict(codec: Codec, itemHref: string, e: Event): (r: Option<Outcome>)
    ensures e.Eof? ==> r == Some(Ok(None))
    ensures e.ReadError? ==> r == Some(Err(ReadFailed))
    ensures r.Some? ==> r.value != Ok(None) || e.Eof?
    ensures (e.Text? || e.Other? || (e.Start? && e.name != AnchorName)) ==> r.None?
  {
    match e
    case Eof => Some(Ok(None))
    case ReadError => Some(Err(ReadFailed))
    case Start(name, attrs) =>
      if name == AnchorName then
        var o := AnchorTitle(codec, itemHref, attrs);
        if o == Ok(None) then None else Some(o)
      else None
    case _ => None
  }

  function HtmlBody(codec: Codec, itemHref: string, events: seq<Event>): Outcome
  {
    Scan(events, e => BodyVerdict(codec, itemHref, e))
  }

  /** `summary_from_html_body`, over the reader's events. */
  method SummaryFromHtmlBody(codec: Codec, itemHref: string, events: seq<Event>) returns (r: Outcome)
    ensures r == HtmlBody(codec, itemHref, events)
  {
    ghost var v := e => BodyVerdict(codec, itemHref, e);
    var i := 0;
    while i < |events|
      invariant 0 <= i <= |events|
      invariant HtmlBody(codec, itemHref, events) == Scan(events[i..], v)
    {
      assert events[i..][0] == events[i] && events[i..][1..] == events[i + 1..];
      match events[i] {
        case Eof =>
          break;
        case ReadError =>
          return Err(ReadFailed);
        case Start(name, attrs) =>
          if name == AnchorName {
            var found := false;
            var titleAttr: Option<Bytes> := None;
            var j := 0;
            while j < |attrs|
              invariant 0 <= j <= |attrs|
              invariant ScanAttrs(codec, itemHref, AnchorState(false, None), attrs) ==
                        ScanAttrs(codec, itemHref, AnchorState(found, titleAttr), attrs[j..])
            {
              assert attrs[j..][0] == attrs[j] && attrs[j..][1..] == attrs[j + 1..];
              match attrs[j] {
                case Malformed =>
                  return Err(AttributeFailed);
                case Attr(key, value) =>
                  if key == HrefKey {
                    var href := AttrValue(codec, value);
                    if href.Err? {
                      return Err(href.error);
                    }
                    if href.value == itemHref {
                      found := true;
                    }
                    var itemHrefPath := UrlPath(itemHref);
                    if itemHrefPath.Some? && href.value == itemHrefPath.value {
                      found := true;
                    }
                  } else if key == TitleKey {
                    titleAttr := Some(value);
                  }
              }
              j := j + 1;
            }
            if found && titleAttr.Some? {
              var title := AttrValue(codec, titleAttr.value);
              if title.Err? {
                return Err(title.error);
              }
              return Ok(Some(title.value));
            }
          }
        case _ =>
      }
      i := i + 1;
    }
    r := Ok(None);
  }

  // ---------------------------------------------------------------------
  // What the body heuristic finds when no library call fails

  /**
   * An attribute the loop reads without error: a well-formed one whose value,
   * if it is an `href`, decodes. A `title` is only stored here, not decoded.
   */
  predicate AttrClean(codec: Codec, a: AttrItem)
  {
    a.Attr? && (a.key == HrefKey ==> AttrValue(codec, a.value).Ok?)
  }

  predicate AttrsClean(codec: Codec, attrs: seq<AttrItem>)
  {
    forall i :: 0 <= i < |attrs| ==> AttrClean(codec, attrs[i])
  }

  /** An `href` attribute whose value refers to the item. */
  predicate IsMatchingHref(codec: Codec, itemHref: string, a: AttrItem)
  {
    a.Attr? && a.key == HrefKey && AttrValue(codec, a.value).Ok? &&
    HrefMatches(itemHref, AttrValue(codec, a.value).value)
  }

  predicate HasMatchingHref(codec: Codec, itemHref: string, attrs: seq<AttrItem>)
  {
    exists i :: 0 <= i < |attrs| && IsMatchingHref(codec, itemHref, attrs[i])
  }

  /** The raw value of the last `title` attribute: later ones overwrite earlier ones. */
  function LastTitle(attrs: seq<AttrItem>): (r: Option<Bytes>)
    ensures r.Some? ==> exists i :: 0 <= i < |attrs| && attrs[i] == Attr(TitleKey, r.value) &&
                          forall j :: i < j < |attrs| ==> !IsTitle(attrs[j])
    ensures r.None? ==> forall i :: 0 <= i < |attrs| ==> !IsTitle(attrs[i])
  {
    if attrs == [] then None
    else
      var tail := LastTitle(attrs[1..]);
      assert forall i :: 1 <= i < |attrs| ==> attrs[i] == attrs[1..][i - 1];
      if tail.Some? then
        var i :| 0 <= i < |attrs[1..]| && attrs[1..][i] == Attr(TitleKey, tail.value) &&
                 forall j :: i < j < |attrs[1..]| ==> !IsTitle(attrs[1..][j]);
        assert attrs[i + 1] == Attr(TitleKey, tail.value);
        assert forall j :: i + 1 < j < |attrs| ==> !IsTitle(attrs[j]);
        tail
      else if IsTitle(attrs[0]) then Some(attrs[0].value)
      else None
  }

  predicate IsTitle(a: AttrItem)
  {
    a.Attr? && a.key == TitleKey
  }

  /** An `<a>` tag whose title the heuristic returns: it links to the item and has a title. */
  predicate Qualifies(codec: Codec, itemHref: string, attrs: seq<AttrItem>)
  {
    HasMatchingHref(codec, itemHref, attrs) && LastTitle(attrs).Some?
  }

  /** Without errors, the attribute loop records whether some `href` matches and the last title. */
  lemma {:induction false} ScanAttrsClean(codec: Codec, itemHref: string, st: AnchorState, attrs: seq<AttrItem>)
    requires AttrsClean(codec, attrs)
    ensures ScanAttrs(codec, itemHref, st, attrs) ==
              Ok(AnchorState(st.found || HasMatchingHref(codec, itemHref, attrs),
                             if LastTitle(attrs).Some? then LastTitle(attrs) else st.title))
    decreases |attrs|
  {
    if attrs != [] {
      var a := attrs[0];
      assert AttrClean(codec, a);
      assert AttrsClean(codec, attrs[1..]) by {
        assert forall i :: 1 <= i < |attrs| ==> attrs[i] == attrs[1..][i - 1];
      }
      var st' := StepAttr(codec, itemHref, st, a).value;
      ScanAttrsClean(codec, itemHref, st', attrs[1..]);
      assert HasMatchingHref(codec, itemHref, attrs) <==>
             IsMatchingHref(codec, itemHref, a) || HasMatchingHref(codec, itemHref, attrs[1..]) by {
        if HasMatchingHref(codec, itemHref, attrs) {
          var i :| 0 <= i < |attrs| && IsMatchingHref(codec, itemHref, attrs[i]);
          if i > 0 { assert attrs[1..][i - 1] == attrs[i]; }
        }
        if HasMatchingHref(codec, itemHref, attrs[1..]) {
          var i :| 0 <= i < |attrs[1..]| && IsMatchingHref(codec, itemHref, attrs[1..][i]);
          assert attrs[i + 1] == attrs[1..][i];
        }
      }
    }
  }

  /** The outcome for a qualifying tag: its last title decoded, or the decoding error. */
  function TitleOutcome(codec: Codec, title: Bytes): Outcome
  {
    match AttrValue(codec, title)
    case Err(e) => Err(e)
    case Ok(t) => Ok(Some(t))
  }

  /**
   * Without errors in its attributes, an `<a>` tag decodes and yields its
   * last title exactly when it qualifies; any other tag yields nothing,
   * whatever its titles hold.
   */
  lemma AnchorTitleClean(codec: Codec, itemHref: string, attrs: seq<AttrItem>)
    requires AttrsClean(codec, attrs)
    ensures Qualifies(codec, itemHref, attrs) ==>
              AnchorTitle(codec, itemHref, attrs) == TitleOutcome(codec, LastTitle(attrs).value)
    ensures !Qualifies(codec, itemHref, attrs) ==> AnchorTitle(codec, itemHref, attrs) == Ok(None)
  {
    ScanAttrsClean(codec, itemHref, AnchorState(false, None), attrs);
  }

  /** An attribute that fails to read aborts the whole heuristic. */
  lemma {:induction false} AnchorMalformedAborts(codec: Codec, itemHref: string, st: AnchorState, attrs: seq<AttrItem>, i: nat)
    requires i < |attrs| && attrs[i].Malformed?
    requires forall j :: 0 <= j < i ==> AttrClean(codec, attrs[j])
    ensures ScanAttrs(codec, itemHref, st, attrs) == Err(AttributeFailed)
    decreases i
  {
    if i > 0 {
      assert AttrClean(codec, attrs[0]);
      var st' := StepAttr(codec, itemHref, st, attrs[0]).value;
      assert forall j :: 1 <= j < |attrs| ==> attrs[j] == attrs[1..][j - 1];
      AnchorMalformedAborts(codec, itemHref, st', attrs[1..], i - 1);
    }
  }

  /** An event the body heuristic reads past without returning. */
  predicate Passes(codec: Codec, itemHref: string, e: Event)
  {
    e.Text? || e.Other? ||
    (e.Start? && (e.name != AnchorName || (AttrsClean(codec, e.attrs) && !Qualifies(codec, itemHref, e.attrs))))
  }

  /**
   * The heuristic returns the title of the first qualifying `<a>` tag, or
   * the error of decoding it: earlier non-matching anchors, whatever their
   * titles hold, and matching anchors without a title, are skipped.
   */
  lemma HtmlBodyFirstMatch(codec: Codec, itemHref: string, events: seq<Event>, k: nat)
    requires k < |events| && events[k].Start? && events[k].name == AnchorName
    requires AttrsClean(codec, events[k].attrs) && Qualifies(codec, itemHref, events[k].attrs)
    requires forall j :: 0 <= j < k ==> Passes(codec, itemHref, events[j])
    ensures HtmlBody(codec, itemHref, events) == TitleOutcome(codec, LastTitle(events[k].attrs).value)
  {
    var v := e => BodyVerdict(codec, itemHref, e);
    AnchorTitleClean(codec, itemHref, events[k].attrs);
    forall j | 0 <= j < k ensures v(events[j]).None? {
      if events[j].Start? && events[j].name == AnchorName {
        AnchorTitleClean(codec, itemHref, events[j].attrs);
      }
    }
    assert v(events[k]).Some?;
  }

  /** With no qualifying `<a>` tag before the end of the stream, there is no summary. */
  lemma HtmlBodyNoMatch(codec: Codec, itemHref: string, events: seq<Event>, k: nat)
    requires k <= |events| && (k < |events| ==> events[k].Eof?)
    requires forall j :: 0 <= j < k ==> Passes(codec, itemHref, events[j])
    ensures HtmlBody(codec, itemHref, events) == Ok(None)
  {
    var v := e => BodyVerdict(codec, itemHref, e);
    forall j | 0 <= j < k ensures v(events[j]).None? {
      if events[j].Start? && events[j].name == AnchorName {
        AnchorTitleClean(codec, itemHref, events[j].attrs);
      }
    }
    assert k < |events| ==> v(events[k]).Some?;
  }

  /** A failed read, or a failing attribute of an `<a>` tag, before any match aborts with an error. */
  lemma HtmlBodyAborts(codec: Codec, itemHref: string, events: seq<Event>, k: nat)
    requires k < |events|
    requires events[k].ReadError? ||
             (events[k].Start? && events[k].name == AnchorName && AnchorTitle(codec, itemHref, events[k].attrs).Err?)
    requires forall j :: 0 <= j < k ==> Passes(codec, itemHref, events[j])
    ensures HtmlBody(codec, itemHref, events).Err?
    ensures events[k].ReadError? ==> HtmlBody(codec, itemHref, events) == Err(ReadFailed)
  {
    var v := e => BodyVerdict(codec, itemHref, e);
    forall j | 0 <= j < k ensures v(events[j]).None? {
      if events[j].Start? && events[j].name == AnchorName {
        AnchorTitleClean(codec, itemHref, events[j].attrs);
      }
    }
    assert v(events[k]).Some?;
  }

  /** `url_path` of scheme, host and a path that starts with '/' is that path. */
  lemma UrlPathOfParts(scheme: string, host: string, path: string)
    requires scheme == "http://" || scheme == "https://"
    requires '/' !in host && path != [] && path[0] == '/'
    ensures UrlPath(scheme + host + path) == Some(path)
  {
    var url := scheme + host + path;
    assert url[..|scheme|] == scheme;
    assert url[..4] == "http";
    assert SchemeLength(url) == |scheme| by {
      if scheme == "https://" { assert url[4] == 's'; assert url[..7] != "http://"; }
    }
    assert url[SchemeLength(url)..] == host + path;
    assert (host + path)[|host|] == '/';
    var r := UrlPath(url).value;
    var rest := host + path;
    assert rest[|rest| - |r|..] == r && '/' !in rest[..|rest| - |r|] && r[0] == '/';
  }

  /** `url_path` of a URL with no '/' after its host is `None`, as for "https://example.com". */
  lemma UrlPathWithoutPath(scheme: string, host: string)
    requires scheme == "http://" || scheme == "https://"
    requires '/' !in host
    ensures UrlPath(scheme + host) == None
  {
    var url := scheme + host;
    assert url[..|scheme|] == scheme;
    assert SchemeLength(url) == |scheme| by {
      if scheme == "https://" { assert url[4] == 's'; assert url[..7] != "http://"; }
    }
    assert url[SchemeLength(url)..] == host;
  }

  // ---------------------------------------------------------------------
  // summary: which of the entry's fields is used

  /**
   * `summary`: a present summary decides alone (HTML through the summary
   * heuristic, anything else verbatim); otherwise a content body decides (HTML
   * through the body heuristic, anything else verbatim); otherwise nothing.
   */
  function Summary(codec: Codec, href: string, summary: Option<FeedModel.Text>, content: Option<Content>): (r: Outcome)
  {
    if summary.Some? then
      if IsHtml(summary.value.contentType) then HtmlSummary(codec, codec.tokenize(summary.value.content))
      else Ok(Some(summary.value.content))
    else if content.Some? && content.value.body.Some? then
      if IsHtml(content.value.contentType) then HtmlBody(codec, href, codec.tokenize(content.value.body.value))
      else Ok(Some(content.value.body.value))
    else Ok(None)
  }

  /** The two HTML branches: each hands the tokenized markup to its heuristic. */
  lemma SummaryHtmlBranches(codec: Codec, href: string, s: FeedModel.Text, ty: MediaType, body: string)
    ensures IsHtml(s.contentType) ==>
              forall c :: Summary(codec, href, Some(s), c) == HtmlSummary(codec, codec.tokenize(s.content))
    ensures IsHtml(ty) ==>
              Summary(codec, href, None, Some(Content(ty, Some(body)))) == HtmlBody(codec, href, codec.tokenize(body))
  {
  }

  /**
   * An HTML summary whose markup starts with tags and then text gives that
   * text unescaped, whatever the content holds.
   */
  lemma SummaryFromHtmlText(codec: Codec, href: string, s: FeedModel.Text, c: Option<Content>, k: nat)
    requires IsHtml(s.contentType)
    requires k < |codec.tokenize(s.content)| && codec.tokenize(s.content)[k].Text?
    requires forall j :: 0 <= j < k ==> codec.tokenize(s.content)[j].Start? || codec.tokenize(s.content)[j].Other?
    requires codec.unescapeText(codec.tokenize(s.content)[k].raw).Some?
    ensures Summary(codec, href, Some(s), c) == Ok(Some(codec.unescapeText(codec.tokenize(s.content)[k].raw).value))
  {
    HtmlSummaryFirstText(codec, codec.tokenize(s.content), k);
  }

  /** A present summary makes the content, and the item's link, irrelevant. */
  lemma SummaryShadowsContent(codec: Codec, href1: string, href2: string, s: FeedModel.Text, c1: Option<Content>, c2: Option<Content>)
    ensures Summary(codec, href1, Some(s), c1) == Summary(codec, href2, Some(s), c2)
    ensures !IsHtml(s.contentType) ==> Summary(codec, href1, Some(s), c1) == Ok(Some(s.content))
  {
  }

  /** Without a summary, a content element without a body is the same as no content. */
  lemma EmptyContentIsNoContent(codec: Codec, href: string, ty: MediaType)
    ensures Summary(codec, href, None, Some(Content(ty, None))) == Summary(codec, href, None, None) == Ok(None)
  {
  }

  /** Plain text passes through unchanged, from either field. */
  lemma PlainTextVerbatim(codec: Codec, href: string, ty: MediaType, text: string)
    requires !IsHtml(ty)
    ensures Summary(codec, href, Some(FeedModel.Text(ty, text)), None) == Ok(Some(text))
    ensures Summary(codec, href, None, Some(Content(ty, Some(text)))) == Ok(Some(text))
  {
  }

  /** Upper case in the media type does not stop a summary from being read as HTML. */
  lemma HtmlCaseInsensitive()
    ensures IsHtml(MediaType("TEXT", "Html", None, [("charset", "utf-8")]))
  {
    assert AsciiLower("TEXT") == "text";
    assert AsciiLower("Html") == "html";
  }

  /**
   * Only the essence counts: parameters never change the verdict, and an
   * HTML type has no suffix and four-letter type and subtype.
   */
  lemma IsHtmlIgnoresParams(t: MediaType, ps: seq<(string, string)>)
    ensures IsHtml(t) <==> IsHtml(t.(params := ps))
    ensures IsHtml(t) ==> t.suffix.None? && |t.ty| == 4 && |t.subty| == 4
    ensures IsHtml(MediaType("text", "html", None, ps))
  {
    assert AsciiLower("text") == "text" && AsciiLower("html") == "html";
  }

  // ---------------------------------------------------------------------
  // The unit tests of the extractor, over the event streams their markup gives

  const DivName: Bytes := [100, 105, 118]
  const ParagraphName: Bytes := [112]
  const ImageName: Bytes := [105, 109, 103]

  /** `<div><p>First paragraph.</p><p>Second paragraph.</p></div>`: the first text is the summary. */
  lemma FirstTextExample(codec: Codec, first: Bytes, second: Bytes, text: string)
    requires codec.unescapeText(first) == Some(text)
    ensures HtmlSummary(codec, [Start(DivName, []), Start(ParagraphName, []), Event.Text(first), Other,
                                Start(ParagraphName, []), Event.Text(second), Other, Other, Eof]) == Ok(Some(text))
  {
    var events := [Start(DivName, []), Start(ParagraphName, []), Event.Text(first), Other,
                   Start(ParagraphName, []), Event.Text(second), Other, Other, Eof];
    HtmlSummaryFirstText(codec, events, 2);
  }

  /** `<div><img title="foo"></div>`: no text, no summary (attributes are not text). */
  lemma NoTextExample(codec: Codec, foo: Bytes)
    ensures HtmlSummary(codec, [Start(DivName, []), Start(ImageName, [Attr(TitleKey, foo)]), Other, Eof]) == Ok(None)
  {
    HtmlSummaryNoText(codec, [Start(DivName, []), Start(ImageName, [Attr(TitleKey, foo)]), Other, Eof], 3);
  }

  /** The event stream of `<div><a title=… href=…>…</a></div>`. */
  function AnchorPage(titleRaw: Bytes, hrefRaw: Bytes, textRaw: Bytes): seq<Event>
  {
    [Start(DivName, []), Start(AnchorName, [Attr(TitleKey, titleRaw), Attr(HrefKey, hrefRaw)]),
     Event.Text(textRaw), Other, Other, Eof]
  }

  /** An anchor whose `href` value refers to the item yields its title. */
  lemma AnchorPageMatches(codec: Codec, itemHref: string, href: string, titleRaw: Bytes, hrefRaw: Bytes, textRaw: Bytes, title: string)
    requires codec.decodeAttr(titleRaw) == Some(title)
    requires AttrValue(codec, hrefRaw) == Ok(href) && HrefMatches(itemHref, href)
    ensures HtmlBody(codec, itemHref, AnchorPage(titleRaw, hrefRaw, textRaw)) == Ok(Some(title))
  {
    var events := AnchorPage(titleRaw, hrefRaw, textRaw);
    var attrs := events[1].attrs;
    assert IsMatchingHref(codec, itemHref, attrs[1]);
    assert LastTitle(attrs) == Some(titleRaw);
    HtmlBodyFirstMatch(codec, itemHref, events, 1);
  }

  /** An anchor whose `href` is the item's own link yields its title. */
  lemma MatchingLinkExample(codec: Codec, itemHref: string, titleRaw: Bytes, hrefRaw: Bytes, textRaw: Bytes, title: string)
    requires codec.decodeAttr(titleRaw) == Some(title)
    requires codec.decodeAttr(hrefRaw) == Some(itemHref)
    ensures HtmlBody(codec, itemHref, AnchorPage(titleRaw, hrefRaw, textRaw)) == Ok(Some(title))
  {
    AnchorPageMatches(codec, itemHref, itemHref, titleRaw, hrefRaw, textRaw, title);
  }

  /** An anchor whose `href` is only the path of the item's link yields its title. */
  lemma PathOnlyExample(codec: Codec, host: string, path: string, titleRaw: Bytes, hrefRaw: Bytes, textRaw: Bytes, title: string)
    requires '/' !in host && path != [] && path[0] == '/'
    requires codec.decodeAttr(titleRaw) == Some(title)
    requires codec.decodeAttr(hrefRaw) == Some(path)
    ensures HtmlBody(codec, "https://" + host + path, AnchorPage(titleRaw, hrefRaw, textRaw)) == Ok(Some(title))
  {
    UrlPathOfParts("https://", host, path);
    AnchorPageMatches(codec, "https://" + host + path, path, titleRaw, hrefRaw, textRaw, title);
  }

  /** An anchor pointing elsewhere, for an item link without a path, yields nothing. */
  lemma WrongUrlExample(codec: Codec, host: string, other: string, titleRaw: Bytes, hrefRaw: Bytes, textRaw: Bytes, title: string)
    requires '/' !in host && other != "https://" + host
    requires codec.decodeAttr(titleRaw) == Some(title)
    requires codec.decodeAttr(hrefRaw) == Some(other)
    ensures HtmlBody(codec, "https://" + host, AnchorPage(titleRaw, hrefRaw, textRaw)) == Ok(None)
  {
    var itemHref := "https://" + host;
    UrlPathWithoutPath("https://", host);
    var events := AnchorPage(titleRaw, hrefRaw, textRaw);
    var attrs := events[1].attrs;
    assert !HasMatchingHref(codec, itemHref, attrs) by {
      assert !IsMatchingHref(codec, itemHref, attrs[0]) && !IsMatchingHref(codec, itemHref, attrs[1]);
    }
    assert Passes(codec, itemHref, events[1]);
    HtmlBodyNoMatch(codec, itemHref, events, 5);
  }

  /** An `href` that does not unescape (a bare '&') is read as raw UTF-8 and still matches. */
  lemma ImproperlyEscapedExample(codec: Codec, itemHref: string, titleRaw: Bytes, hrefRaw: Bytes, textRaw: Bytes, title: string)
    requires codec.decodeAttr(titleRaw) == Some(title)
    requires codec.decodeAttr(hrefRaw) == None && codec.utf8(hrefRaw) == Some(itemHref)
    ensures HtmlBody(codec, itemHref, AnchorPage(titleRaw, hrefRaw, textRaw)) == Ok(Some(title))
  {
    AnchorPageMatches(codec, itemHref, itemHref, titleRaw, hrefRaw, textRaw, title);
  }
}
