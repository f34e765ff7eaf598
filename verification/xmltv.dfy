/** The XMLTV guide as the writers build it with ElementTree, and a reader of the
    `channel` and `programme` elements a guide consumer looks at. Serialisation to
    text (ElementTree's escaping, minidom's indentation) is not part of the model. */
module Xmltv {
  import opened Outcome
  import opened Civil
  import opened TimeFormat

  /** An element: its tag, its attributes in the order they were set, its text and
      its children. */
  datatype Element = Element(tag: string, attrs: seq<(string, string)>, text: Option<string>, children: seq<Element>)

  /** An element with no children. */
  function Leaf(tag: string, attrs: seq<(string, string)>, text: Option<string>): Element
  {
    Element(tag, attrs, text, [])
  }

  /** `elem.get(key)`: the value set for the attribute, if any. */
  function Attr(attrs: seq<(string, string)>, key: string): Option<string>
  {
    if |attrs| == 0 then None
    else if attrs[0].0 == key then Some(attrs[0].1)
    else Attr(attrs[1..], key)
  }

  /** `elem.find(tag)`: the first child with the tag. */
  function Find(children: seq<Element>, tag: string): Option<Element>
  {
    if |children| == 0 then None
    else if children[0].tag == tag then Some(children[0])
    else Find(children[1..], tag)
  }

  /** The text of an element found by `Find`, if it was found and has text. */
  function TextOf(e: Option<Element>): Option<string>
  {
    match e
    case None => None
    case Some(x) => x.text
  }

  /** The value of attribute `key` of an element found by `Find`. */
  function AttrOf(e: Option<Element>, key: string): Option<string>
  {
    match e
    case None => None
    case Some(x) => Attr(x.attrs, key)
  }

  /** A programme as a guide reader sees it: the channel it is listed under, its
      start and stop read back from the time stamps, and the texts of its first
      `title` and `desc` children. */
  datatype Listing = Listing(channel: string, start: DateTime, stop: DateTime, title: Option<string>, desc: Option<string>)

  /** A channel as a guide reader sees it: its id, display name and icon. */
  datatype ChannelEntry = ChannelEntry(id: string, name: Option<string>, icon: Option<string>)

  /** A `programme` element whose `channel`, `start` and `stop` attributes are
      present and whose stamps read as date-times. */
  function ReadProgramme(e: Element): Option<Listing>
  {
    if e.tag != "programme" then None
    else
      match (Attr(e.attrs, "channel"), Attr(e.attrs, "start"), Attr(e.attrs, "stop"))
      case (Some(c), Some(a), Some(b)) =>
        (match (ReadStamp(a), ReadStamp(b))
         case (Some(s), Some(t)) =>
           Some(Listing(c, s, t, TextOf(Find(e.children, "title")), TextOf(Find(e.children, "desc"))))
         case _ => None)
      case _ => None
  }

  /** A `channel` element with an `id`. */
  function ReadChannel(e: Element): Option<ChannelEntry>
  {
    if e.tag != "channel" then None
    else
      match Attr(e.attrs, "id")
      case None => None
      case Some(id) =>
        Some(ChannelEntry(id, TextOf(Find(e.children, "display-name")), AttrOf(Find(e.children, "icon"), "src")))
  }

  /** The programmes of a guide, in document order. */
  function Listings(tv: Element): seq<Listing>
  {
    FilterMap(tv.children, ReadProgramme)
  }

  /** The channels of a guide, in document order. */
  function Channels(tv: Element): seq<ChannelEntry>
  {
    FilterMap(tv.children, ReadChannel)
  }
}
