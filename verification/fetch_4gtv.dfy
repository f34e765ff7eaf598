/** `fetch_4gtv.py`: the same channel list read from the page source, with an HTML
    error page refused first and a missing `Data` read as an empty list. */
module Fetch4gtv {
  import opened Outcome
  import opened Text
  import opened FourGtv
  import GetChannel

  /** The marker of an HTML page. */
  const HtmlMarker: string := "<!DOCTYPE html>"

  /** The script, given the page source and that source parsed as JSON (`None` when
      it does not parse): the records it writes and the count it reports, or
      `exit(1)`. `data.get("Data", [])` reads a missing `Data` as no channels. */
  function Run(content: string, parsed: Option<Document>): Result<(seq<Extracted>, nat)>
  {
    if Contains(content, HtmlMarker) then Raised("exit")
    else
      match parsed
      case None => Raised("exit")
      case Some(doc) =>
        match doc
        case NotAnObject => Raised("exit")
        case Object(data) =>
          match data
          case Absent => Ok(([], 0))
          case EmptyContainer => Ok(([], 0))
          case OtherValue => Raised("exit")
          case ListOf(items) =>
            match Extract(items)
            case Raised(r) => Raised(r)
            case Ok(rs) => Ok((rs, |rs|))
  }

  /** A source holding the HTML marker anywhere is refused, whatever it parses to;
      otherwise a `Data` list gives the blocklist-filtered records with their count. */
  lemma RunSpec(before: string, after: string, content: string, parsed: Option<Document>)
    ensures Run(before + HtmlMarker + after, parsed).Raised?
    ensures !Contains(content, HtmlMarker) && parsed.Some? && parsed.value.Object? && parsed.value.data.ListOf? ==>
      var items := parsed.value.data.items;
      && (Run(content, parsed).Ok? <==> Extract(items).Ok?)
      && (Run(content, parsed).Ok? ==>
            && Run(content, parsed).value.0 == Extract(items).value
            && Run(content, parsed).value.1 == |items| - Rejected(items, Kept))
  {
    var s := before + HtmlMarker + after;
    assert s[|before|..|before| + |HtmlMarker|] == HtmlMarker;
    assert OccursAt(s, HtmlMarker, |before|);
    if parsed.Some? && parsed.value.Object? && parsed.value.data.ListOf? {
      ExtractSpec(parsed.value.data.items);
    }
  }

  /** The two channel-list scripts part ways on a JSON object without `Data`: this
      one writes an empty list, the browser-page script exits. */
  lemma MissingDataDiffers(content: string, pre: Option<Document>)
    requires !Contains(content, HtmlMarker) && GetChannel.LooksLikeJson(content)
    ensures Run(content, Some(Object(Absent))) == Ok(([], 0))
    ensures GetChannel.Run(GetChannel.Page(content, Some(Object(Absent)), pre)).Raised?
  {
  }
}
