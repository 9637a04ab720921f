/**
 * The mapping of a parsed feed to the application's `Feed` and its entries,
 * with the validation errors of src/fetch.rs. The HTTP request and the
 * feed_rs parser that produce the parsed feed are outside the model.
 */
module Fetch {
  import opened Wrappers
  import opened FeedModel

  datatype Feed = Feed(title: string, logoUrl: Option<string>)

  /** One feed entry; the timestamp is a UTC instant. */
  datatype Entry = Entry(
    timestamp: int,
    href: string,
    title: string,
    thumbnailUrl: Option<string>,
    summary: Option<string>)

  datatype RssError = MissingTimestamp | MissingLink | MissingTitle | MissingFeedTitle

  /** The URI of the first thumbnail of the first media object, if both exist. */
  function FirstThumbnail(media: seq<MediaObject>): (r: Option<string>)
    ensures r.Some? <==> |media| > 0 && |media[0].thumbnails| > 0
    ensures r.Some? ==> r.value == media[0].thumbnails[0].image.uri
  {
    if media == [] then None
    else if media[0].thumbnails == [] then None
    else Some(media[0].thumbnails[0].image.uri)
  }

  /**
   * One entry: timestamp, then link, then title are required, checked in
   * that order; the first missing one names the error.
   */
  function ConvertEntry(raw: RawEntry): (r: Result<Entry, RssError>)
    ensures r == Err(MissingTimestamp) <==> raw.published.None? && raw.updated.None?
    ensures r == Err(MissingLink) <==> (raw.published.Some? || raw.updated.Some?) && raw.links == []
    ensures r == Err(MissingTitle) <==>
              (raw.published.Some? || raw.updated.Some?) && raw.links != [] && raw.title.None?
    ensures r.Err? ==> r.error != MissingFeedTitle
    ensures r.Ok? ==> r.value.timestamp == (if raw.published.Some? then raw.published.value else raw.updated.value)
    ensures r.Ok? ==> r.value.href == raw.links[0].href && r.value.title == raw.title.value.content
    ensures r.Ok? ==> r.value.thumbnailUrl == FirstThumbnail(raw.media)
    ensures r.Ok? ==> r.value.summary == (if raw.summary.Some? then Some(raw.summary.value.content) else None)
  {
    match raw.published.Or(raw.updated)
    case None => Err(MissingTimestamp)
    case Some(timestamp) =>
      if raw.links == [] then Err(MissingLink)
      else match raw.title
        case None => Err(MissingTitle)
        case Some(title) =>
          Ok(Entry(
            timestamp,
            raw.links[0].href,
            title.content,
            FirstThumbnail(raw.media),
            match raw.summary case Some(s) => Some(s.content) case None => None))
  }

  /**
   * `collect::<Result<Vec<_>, _>>()`: every entry converted, in order, or the
   * error of the first entry that fails.
   */
  function ConvertEntries(raws: seq<RawEntry>): (r: Result<seq<Entry>, RssError>)
    ensures r.Ok? <==> forall i :: 0 <= i < |raws| ==> ConvertEntry(raws[i]).Ok?
    ensures r.Ok? ==> |r.value| == |raws| &&
                      forall i :: 0 <= i < |raws| ==> ConvertEntry(raws[i]) == Ok(r.value[i])
    ensures r.Err? ==> exists i :: 0 <= i < |raws| && ConvertEntry(raws[i]) == Err(r.error) &&
                                   forall j :: 0 <= j < i ==> ConvertEntry(raws[j]).Ok?
  {
    if raws == [] then Ok([])
    else match ConvertEntry(raws[0])
      case Err(e) => Err(e)
      case Ok(entry) =>
        match ConvertEntries(raws[1..])
        case Err(e) =>
          var i :| 0 <= i < |raws[1..]| && ConvertEntry(raws[1..][i]) == Err(e) &&
                   forall j :: 0 <= j < i ==> ConvertEntry(raws[1..][j]).Ok?;
          assert ConvertEntry(raws[i + 1]) == Err(e);
          assert forall j :: 1 <= j < i + 1 ==> raws[j] == raws[1..][j - 1];
          Err(e)
        case Ok(rest) =>
          assert forall i :: 1 <= i < |raws| ==> raws[i] == raws[1..][i - 1];
          Ok([entry] + rest)
  }

  /**
   * The feed: its title is required and checked before any entry; its logo,
   * if any, gives `logoUrl`; then all entries must convert.
   */
  function ConvertFeed(raw: RawFeed): (r: Result<(Feed, seq<Entry>), RssError>)
    ensures raw.title.None? ==> r == Err(MissingFeedTitle)
    ensures raw.title.Some? ==> (r.Ok? <==> ConvertEntries(raw.entries).Ok?)
    ensures raw.title.Some? && r.Err? ==> r.error == ConvertEntries(raw.entries).error
    ensures r.Ok? ==> r.value.0.title == raw.title.value.content &&
                      r.value.0.logoUrl == (if raw.logo.Some? then Some(raw.logo.value.uri) else None) &&
                      r.value.1 == ConvertEntries(raw.entries).value
  {
    match raw.title
    case None => Err(MissingFeedTitle)
    case Some(title) =>
      var feed := Feed(title.content, match raw.logo case Some(l) => Some(l.uri) case None => None);
      match ConvertEntries(raw.entries)
      case Err(e) => Err(e)
      case Ok(entries) => Ok((feed, entries))
  }

  /** Only the first media object is consulted for the thumbnail. */
  lemma {:induction false} LaterMediaIgnored(raw: RawEntry, extra: seq<MediaObject>)
    requires |raw.media| > 0
    ensures ConvertEntry(raw.(media := raw.media[..1] + extra)) == ConvertEntry(raw)
  {
    var m := raw.media[..1] + extra;
    assert m[0] == raw.media[0];
    assert FirstThumbnail(m) == FirstThumbnail(raw.media);
  }

  /** A feed with a valid title fails exactly when one of its entries does, with the first such error. */
  lemma {:induction false} FeedFailsOnFirstBadEntry(raw: RawFeed, k: nat)
    requires raw.title.Some?
    requires k < |raw.entries| && ConvertEntry(raw.entries[k]).Err?
    requires forall j :: 0 <= j < k ==> ConvertEntry(raw.entries[j]).Ok?
    ensures ConvertFeed(raw) == Err(ConvertEntry(raw.entries[k]).error)
  {
    var r := ConvertEntries(raw.entries);
    assert r.Err?;
    var i :| 0 <= i < |raw.entries| && ConvertEntry(raw.entries[i]) == Err(r.error) &&
             forall j :: 0 <= j < i ==> ConvertEntry(raw.entries[j]).Ok?;
    assert i == k;
  }
}
