/**
 * The parts of the feed_rs data model that the modelled code reads, as
 * plain datatypes. Parsing a feed document into this model is done by the
 * feed_rs library and is outside the model.
 */
module FeedModel {
  import opened Wrappers

  /** A media type `type/subtype[+suffix]; params`, as the mediatype library holds it. */
  datatype MediaType = MediaType(ty: string, subty: string, suffix: Option<string>, params: seq<(string, string)>) {
    /** `essence()`: the media type without its parameters. */
    function Essence(): (r: MediaType)
      ensures r.params == [] && r.ty == ty && r.subty == subty && r.suffix == suffix
    {
      MediaType(ty, subty, suffix, [])
    }
  }

  /** Text with its content type: the type of titles and summaries. */
  datatype Text = Text(contentType: MediaType, content: string)

  /** An entry's content element; its body may be absent. */
  datatype Content = Content(contentType: MediaType, body: Option<string>)

  datatype Image = Image(uri: string)

  datatype Link = Link(href: string)

  datatype MediaThumbnail = MediaThumbnail(image: Image)

  datatype MediaObject = MediaObject(thumbnails: seq<MediaThumbnail>)

  /** One entry of a parsed feed; timestamps are UTC instants. */
  datatype RawEntry = RawEntry(
    published: Option<int>,
    updated: Option<int>,
    links: seq<Link>,
    title: Option<Text>,
    media: seq<MediaObject>,
    summary: Option<Text>,
    content: Option<Content>)

  /** A parsed feed document. */
  datatype RawFeed = RawFeed(title: Option<Text>, logo: Option<Image>, entries: seq<RawEntry>)
}
