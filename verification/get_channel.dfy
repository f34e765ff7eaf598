/** `Get_Channel.py`: the 4GTV channel list read through a browser page, checked for
    a `Data` list, filtered by the blocklist and written as four-field records. */
module GetChannel {
  import opened Outcome
  import opened Text
  import opened FourGtv

  /** The browser page: its source text, that text parsed as JSON (`None` when it
      does not parse), and the text of its `pre` element parsed as JSON (`None` when
      there is no such element or its text does not parse). */
  datatype Page = Page(content: string, parsed: Option<Document>, pre: Option<Document>)

  /** `content.strip()` starts with `{` or `[`. */
  predicate LooksLikeJson(content: string)
  {
    var s := Strip(content);
    |s| > 0 && (s[0] == '{' || s[0] == '[')
  }

  /** The document the script goes on with: the page source itself when it looks
      like JSON, the `pre` element's text otherwise. */
  function Source(page: Page): Option<Document>
  {
    if LooksLikeJson(page.content) then page.parsed else page.pre
  }

  /** The script: the records it writes and the count it reports, or `exit(1)` when
      nothing parses, when `Data` is missing or is not a list, or when a channel
      cannot be read. */
  function Run(page: Page): Result<(seq<Extracted>, nat)>
  {
    match Source(page)
    case None => Raised("exit")
    case Some(doc) =>
      match doc
      case NotAnObject => Raised("exit")
      case Object(data) =>
        match data
        case ListOf(items) =>
          (match Extract(items)
           case Raised(r) => Raised(r)
           case Ok(rs) => Ok((rs, |rs|)))
        case _ => Raised("exit")
  }

  /** Only a `Data` list gets past the shape check; the reported count is the number
      of records written, which is the number of channels less those the blocklist
      skipped; a page whose source does not look like JSON is read from its `pre`
      element alone, and one that does from its source alone. */
  lemma RunSpec(page: Page)
    ensures Run(page).Ok? ==>
      && Source(page).Some? && Source(page).value.Object? && Source(page).value.data.ListOf?
      && var items := Source(page).value.data.items;
      && Extract(items) == Ok(Run(page).value.0)
      && Run(page).value.1 == |Run(page).value.0| == |items| - Rejected(items, Kept)
    ensures Source(page).Some? && Source(page).value.Object? && !Source(page).value.data.ListOf? ==>
      Run(page).Raised?
    ensures !LooksLikeJson(page.content) ==> forall d :: Run(page.(parsed := d)) == Run(page)
    ensures LooksLikeJson(page.content) ==> forall d :: Run(page.(pre := d)) == Run(page)
  {
    if Run(page).Ok? {
      var items := Source(page).value.data.items;
      ExtractSpec(items);
    }
  }
}
