/** `Make_EPG.py`: the 4GTV guide built from the published channel list and each
    channel's programme list, where any failure empties the list it happened in. */
module MakeEpg {
  import opened Outcome
  import opened Civil
  import opened TimeFormat
  import opened Schedule
  import opened FourGtv

  /** A channel of the published list: name, id and logo copied as read, the
      description `""` when the key is absent. */
  datatype FourGtvChannel = FourGtvChannel(channelName: Value, channelId: Value, logo: Value, description: Value)

  /** An answer whose body is `Some` JSON list, or `None` when the body is no JSON
      list. The status code is not looked at. */
  type ListReply = Response<Option<seq<Item>>>

  /** One channel record; a missing `fsNAME`, `fs4GTV_ID` or `fsLOGO_MOBILE`, or an
      element that is no object, raises. */
  function ChannelOf(item: Item): Option<FourGtvChannel>
  {
    match item
    case NotObject => None
    case Record(o) =>
      if "fsNAME" in o && "fs4GTV_ID" in o && "fsLOGO_MOBILE" in o then
        Some(FourGtvChannel(o["fsNAME"], o["fs4GTV_ID"], o["fsLOGO_MOBILE"],
                            if "fsDESCRIPTION" in o then o["fsDESCRIPTION"] else Str("")))
      else None
  }

  /** `get_4gtv_channels`: every record mapped, or no channels at all when the
      request, the parse or any record fails. */
  function GetChannels(reply: ListReply): seq<FourGtvChannel>
  {
    match reply
    case Unreachable => []
    case Reply(_, body) =>
      match body
      case None => []
      case Some(items) =>
        if forall i :: 0 <= i < |items| ==> ChannelOf(items[i]).Some? then FilterMap(items, ChannelOf) else []
  }

  /** The channels are all the records or none: when every record reads, one channel
      per record with the record's fields, in order; otherwise none. */
  lemma GetChannelsSpec(status: int, items: seq<Item>)
    ensures var cs := GetChannels(Reply(status, Some(items)));
      && ((forall i :: 0 <= i < |items| ==> ChannelOf(items[i]).Some?) ==>
            |cs| == |items| && forall i :: 0 <= i < |items| ==> Some(cs[i]) == ChannelOf(items[i]))
      && ((exists i :: 0 <= i < |items| && ChannelOf(items[i]).None?) ==> cs == [])
  {
    if forall i :: 0 <= i < |items| ==> ChannelOf(items[i]).Some? {
      FilterMapTotal(items, ChannelOf);
    }
  }

  /** The object the channel-list scripts write for a record. */
  function Written(e: Extracted): Item
  {
    Record(map["fsNAME" := Str(e.name), "fs4GTV_ID" := e.id, "fsLOGO_MOBILE" := e.logo,
               "fsDESCRIPTION" := e.description])
  }

  /** The list the channel-list scripts publish reads back record for record; an
      absent description, written as `null`, comes back as `None`, not `""`. */
  lemma ChannelsOfWritten(status: int, es: seq<Extracted>)
    ensures var cs := GetChannels(Reply(status, Some(seq(|es|, i requires 0 <= i < |es| => Written(es[i])))));
      && |cs| == |es|
      && forall i :: 0 <= i < |es| ==>
           cs[i] == FourGtvChannel(Str(es[i].name), es[i].id, es[i].logo, es[i].description)
  {
    var items := seq(|es|, i requires 0 <= i < |es| => Written(es[i]));
    GetChannelsSpec(status, items);
  }

  /** `f"{date} {time}"` read as `%Y-%m-%d %H:%M:%S`. */
  function StampOf(date: Value, time: Value): Option<DateTime>
  {
    Strptime(DashSecondFormat, Display(date) + " " + Display(time))
  }

  /** One programme of a channel's list: `sdate stime` to `edate etime`, titled with
      the text of `title`. A missing key, a time that does not read, or a day
      `localize` does not accept raises. */
  function ProgramOf(name: string, item: Item): (r: Option<Program>)
    ensures r.Some? ==>
      && Timed(r.value) && Localizable(r.value.start.date) && Localizable(r.value.end.date)
      && r.value.channelName == name && r.value.channelId.None? && r.value.description == ""
  {
    match item
    case NotObject => None
    case Record(o) =>
      if "sdate" in o && "stime" in o && "edate" in o && "etime" in o && "title" in o then
        match (StampOf(o["sdate"], o["stime"]), StampOf(o["edate"], o["etime"]))
        case (Some(s), Some(e)) =>
          if Localizable(s.date) && Localizable(e.date) then Some(Program(None, name, Display(o["title"]), "", s, e))
          else None
        case _ => None
      else None
  }

  /** `get_4gtv_programs`: every item read, or none at all when the request, the
      parse or any item fails. */
  function GetPrograms(name: string, reply: ListReply): seq<Program>
  {
    match reply
    case Unreachable => []
    case Reply(_, body) =>
      match body
      case None => []
      case Some(items) =>
        if forall i :: 0 <= i < |items| ==> ProgramOf(name, items[i]).Some? then
          FilterMap(items, (it: Item) => ProgramOf(name, it))
        else []
  }

  /** All or nothing: one item that does not read empties the channel's list;
      otherwise each item gives its programme, in order, under the channel's name. */
  lemma GetProgramsSpec(name: string, status: int, items: seq<Item>)
    ensures var ps := GetPrograms(name, Reply(status, Some(items)));
      && ((forall i :: 0 <= i < |items| ==> ProgramOf(name, items[i]).Some?) ==>
            |ps| == |items| && forall i :: 0 <= i < |items| ==> Some(ps[i]) == ProgramOf(name, items[i]))
      && ((exists i :: 0 <= i < |items| && ProgramOf(name, items[i]).None?) ==> ps == [])
  {
    var f := (it: Item) => ProgramOf(name, it);
    if forall i :: 0 <= i < |items| ==> ProgramOf(name, items[i]).Some? {
      FilterMapTotal(items, f);
    }
  }

  /** The item the programme service writes for a programme. */
  function ItemOf(p: Program): Item
    requires Timed(p)
  {
    Record(map["sdate" := Str(Strftime(DashDateFormat, p.start)), "stime" := Str(Strftime(ClockSecondFormat, p.start)),
               "edate" := Str(Strftime(DashDateFormat, p.end)), "etime" := Str(Strftime(ClockSecondFormat, p.end)),
               "title" := Str(p.title)])
  }

  /** The date and clock fields joined with a space are the full stamp. */
  lemma StampSplit(t: DateTime)
    requires Printable(t)
    ensures Strftime(DashDateFormat, t) + " " + Strftime(ClockSecondFormat, t) == Strftime(DashSecondFormat, t)
  {
    StrftimeAppend(DashDateFormat, [Blank], t);
    StrftimeAppend(DashDateFormat + [Blank], ClockSecondFormat, t);
    assert Strftime([Blank], t) == " " by {
      assert [Blank][1..] == [];
    }
  }

  /** An item written for a programme reads back as that programme, unless
      `localize` rejects the day it starts or ends on. */
  lemma ProgramOfItem(p: Program)
    requires Timed(p) && p.channelId.None? && p.description == ""
    ensures ProgramOf(p.channelName, ItemOf(p)) ==
      if Localizable(p.start.date) && Localizable(p.end.date) then Some(p) else None
  {
    ItemOfFields(p);
    StampOfWritten(p.start);
    StampOfWritten(p.end);
  }

  lemma ItemOfFields(p: Program)
    requires Timed(p)
    ensures ItemOf(p).Record?
    ensures var o := ItemOf(p).fields;
      && "sdate" in o && "stime" in o && "edate" in o && "etime" in o && "title" in o
      && o["sdate"] == Str(Strftime(DashDateFormat, p.start)) && o["stime"] == Str(Strftime(ClockSecondFormat, p.start))
      && o["edate"] == Str(Strftime(DashDateFormat, p.end)) && o["etime"] == Str(Strftime(ClockSecondFormat, p.end))
      && o["title"] == Str(p.title)
  {
  }

  /** The date and clock fields written for a date-time read back as it. */
  lemma StampOfWritten(t: DateTime)
    requires Printable(t)
    ensures StampOf(Str(Strftime(DashDateFormat, t)), Str(Strftime(ClockSecondFormat, t))) == Some(t)
  {
    StampSplit(t);
    DashSecondRoundTrip(t);
  }

  /** The programme lists of the channels, in channel order. */
  function ChannelLists(chs: seq<FourGtvChannel>, fetch: string -> ListReply): (lists: seq<seq<Program>>)
    ensures |lists| == |chs|
  {
    seq(|chs|, i requires 0 <= i < |chs| => GetPrograms(Display(chs[i].channelName), fetch(Display(chs[i].channelId))))
  }

  /** `get_4gtv_epg`: the channels, and their programme lists one after the other;
      `fetch(id)` is the answer for `ProgList/{id}.txt`. */
  function GetEpg(reply: ListReply, fetch: string -> ListReply): (seq<FourGtvChannel>, seq<Program>)
  {
    var chs := GetChannels(reply);
    (chs, Concat(ChannelLists(chs, fetch)))
  }

  /** A programme of the guide is one of some channel's list, listed under that
      channel's name, with a printable start and end. */
  lemma GetEpgSpec(reply: ListReply, fetch: string -> ListReply, p: Program)
    ensures var (chs, ps) := GetEpg(reply, fetch);
      p in ps <==> exists i :: 0 <= i < |chs| && p in ChannelLists(chs, fetch)[i]
    ensures var (chs, ps) := GetEpg(reply, fetch);
      p in ps ==> Timed(p) && exists i :: 0 <= i < |chs| && p.channelName == Display(chs[i].channelName)
  {
    var (chs, ps) := GetEpg(reply, fetch);
    var lists := ChannelLists(chs, fetch);
    ConcatMembers(lists, p);
    if p in ps {
      var i :| 0 <= i < |chs| && p in lists[i];
      var name := Display(chs[i].channelName);
      var r := fetch(Display(chs[i].channelId));
      assert r.Reply? && r.body.Some?;
      var items := r.body.value;
      GetProgramsSpec(name, r.status, items);
      var k :| 0 <= k < |lists[i]| && lists[i][k] == p;
      assert Some(p) == ProgramOf(name, items[k]);
    }
  }
}
