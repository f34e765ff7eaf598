/** The Hami Video scraper: the channel list from the layout service, seven days of
    programme pages per channel read with up to five attempts, the per-channel lists
    sorted by start, and the plain-text guide written from them. */
module Hami {
  import opened Outcome
  import opened Text
  import opened Civil
  import opened TimeFormat
  import opened Schedule
  import opened Sorting

  // ---------------------------------------------------------------------------
  // The channel list

  /** An entry of a layout block's `elements`; a key the reply lacks is `None`. */
  datatype LayoutElement = LayoutElement(title: Option<string>, contentPk: Option<string>)

  /** A block of the layout reply's `UIInfo` list. */
  datatype UiInfo = UiInfo(title: Option<string>, elements: Option<seq<LayoutElement>>)

  /** A channel: the name it is listed under and the key its pages are requested by. */
  datatype HamiChannel = HamiChannel(channelName: string, contentPk: string)

  /** The layout reply: `Some(UIInfo)` when the body is JSON holding that list,
      `None` when reading it raises. */
  type LayoutReply = Response<Option<seq<UiInfo>>>

  /** The title of the block that lists the channels. */
  const ChannelListTitle: string := "頻道一覽"

  /** The scan over the blocks ends here: the block has no title (a `KeyError`) or is
      the channel list. */
  predicate EndsScan(info: UiInfo)
  {
    info.title.None? || info.title == Some(ChannelListTitle)
  }

  /** The index of the first block that ends the scan, `|infos|` when none does. */
  function ScanEnd(infos: seq<UiInfo>): (k: nat)
    ensures k <= |infos|
  {
    if |infos| == 0 || EndsScan(infos[0]) then 0 else 1 + ScanEnd(infos[1..])
  }

  lemma {:induction false} ScanEndSpec(infos: seq<UiInfo>)
    ensures forall i :: 0 <= i < ScanEnd(infos) ==> !EndsScan(infos[i])
    ensures ScanEnd(infos) < |infos| ==> EndsScan(infos[ScanEnd(infos)])
  {
    if |infos| > 0 && !EndsScan(infos[0]) {
      ScanEndSpec(infos[1..]);
      assert forall i :: 1 <= i < |infos| ==> infos[i] == infos[1..][i - 1];
    }
  }

  /** The `for info in data["UIInfo"]` loop: the elements of the first block titled as
      the channel list, none when no block is. */
  function ListElements(infos: seq<UiInfo>): Result<seq<LayoutElement>>
  {
    if |infos| == 0 then Ok([])
    else
      match infos[0].title
      case None => Raised("KeyError")
      case Some(t) =>
        if t != ChannelListTitle then ListElements(infos[1..])
        else
          match infos[0].elements
          case None => Raised("KeyError")
          case Some(es) => Ok(es)
  }

  /** The loop stops at the first block that has no title or is the channel list:
      before it every block has some other title; the channel list gives its
      elements, a missing title or missing elements raise, and no list gives none. */
  lemma {:induction false} ListElementsSpec(infos: seq<UiInfo>)
    ensures var k := ScanEnd(infos);
      ListElements(infos) ==
        if k == |infos| then Ok([])
        else if infos[k].title.None? || infos[k].elements.None? then Raised("KeyError")
        else Ok(infos[k].elements.value)
  {
    if |infos| > 0 && !EndsScan(infos[0]) {
      ListElementsSpec(infos[1..]);
    }
  }

  /** One `{"channelName": element['title'], "contentPk": element['contentPk']}`. */
  function ChannelRecord(e: LayoutElement): Option<HamiChannel>
  {
    match (e.title, e.contentPk)
    case (Some(n), Some(pk)) => Some(HamiChannel(n, pk))
    case _ => None
  }

  /** The records of all elements; one element lacking a key raises for the list. */
  function ChannelRecords(es: seq<LayoutElement>): Result<seq<HamiChannel>>
  {
    if forall i :: 0 <= i < |es| ==> ChannelRecord(es[i]).Some? then Ok(FilterMap(es, ChannelRecord))
    else Raised("KeyError")
  }

  /** The records are the elements' names and keys, one per element and in order. */
  lemma ChannelRecordsSpec(es: seq<LayoutElement>)
    ensures ChannelRecords(es).Ok? <==> forall i :: 0 <= i < |es| ==> es[i].title.Some? && es[i].contentPk.Some?
    ensures ChannelRecords(es).Ok? ==>
      && |ChannelRecords(es).value| == |es|
      && forall i :: 0 <= i < |es| ==>
           ChannelRecords(es).value[i] == HamiChannel(es[i].title.value, es[i].contentPk.value)
  {
    if ChannelRecords(es).Ok? {
      FilterMapTotal(es, ChannelRecord);
    }
  }

  /** `request_channel_list`: a transport failure or an unreadable body raises; an
      answer other than `200` gives no channels. */
  function RequestChannelList(reply: LayoutReply): Result<seq<HamiChannel>>
  {
    match reply
    case Unreachable => Raised("ConnectionError")
    case Reply(status, body) =>
      if status != 200 then Ok([])
      else
        match body
        case None => Raised("KeyError")
        case Some(infos) =>
          match ListElements(infos)
          case Raised(r) => Raised(r)
          case Ok(es) => ChannelRecords(es)
  }

  /** The channels come from the first block titled as the channel list and nowhere
      else: a non-200 answer or a layout without that block gives none; otherwise
      each element gives one channel, in order. */
  lemma RequestChannelListSpec(reply: LayoutReply)
    ensures reply.Reply? && reply.status != 200 ==> RequestChannelList(reply) == Ok([])
    ensures reply.IsOk() && reply.body.Some? && ScanEnd(reply.body.value) == |reply.body.value| ==>
      RequestChannelList(reply) == Ok([])
    ensures RequestChannelList(reply).Ok? && RequestChannelList(reply).value != [] ==>
      && reply.IsOk() && reply.body.Some?
      && var infos := reply.body.value;
      && var k := ScanEnd(infos);
      && k < |infos| && infos[k].title == Some(ChannelListTitle) && infos[k].elements.Some?
      && var es := infos[k].elements.value;
      && |RequestChannelList(reply).value| == |es|
      && forall i :: 0 <= i < |es| ==>
           && es[i].title.Some? && es[i].contentPk.Some?
           && RequestChannelList(reply).value[i] == HamiChannel(es[i].title.value, es[i].contentPk.value)
  {
    if reply.IsOk() && reply.body.Some? {
      var infos := reply.body.value;
      ListElementsSpec(infos);
      ScanEndSpec(infos);
      if ListElements(infos).Ok? {
        ChannelRecordsSpec(ListElements(infos).value);
      }
    }
  }

  // ---------------------------------------------------------------------------
  // Programme times

  /** `hami_time_to_datetime`: `start~end`, each `%Y-%m-%d %H:%M:%S`, read as
      Asia/Taipei wall-clock times. Anything but exactly two pieces, or a piece that
      does not read, raises `ValueError`; a day `localize` does not accept then
      raises `OverflowError`. The order of the two is not checked. */
  function HamiTime(s: string): (r: Result<(DateTime, DateTime)>)
    ensures r.Ok? ==> Printable(r.value.0) && Printable(r.value.1)
    ensures r.Ok? ==> Localizable(r.value.0.date) && Localizable(r.value.1.date)
  {
    var parts := Split(s, '~');
    if |parts| != 2 then Raised("ValueError")
    else
      match (Strptime(DashSecondFormat, parts[0]), Strptime(DashSecondFormat, parts[1]))
      case (Some(a), Some(b)) =>
        if Localizable(a.date) && Localizable(b.date) then Ok((a, b)) else Raised("OverflowError")
      case _ => Raised("ValueError")
  }

  /** The range text for two date-times, as the service writes it. */
  function HintText(a: DateTime, b: DateTime): string
    requires Printable(a) && Printable(b)
  {
    Strftime(DashSecondFormat, a) + "~" + Strftime(DashSecondFormat, b)
  }

  /** A range the service writes reads back as its two date-times, unless `localize`
      rejects the day of one of them. */
  lemma HamiTimeRoundTrip(a: DateTime, b: DateTime)
    requires Printable(a) && Printable(b)
    ensures HamiTime(HintText(a, b)) ==
      if Localizable(a.date) && Localizable(b.date) then Ok((a, b)) else Raised("OverflowError")
  {
    var A := Strftime(DashSecondFormat, a);
    var B := Strftime(DashSecondFormat, b);
    DashSecondShape();
    StrftimeAvoids(DashSecondFormat, a, '~');
    StrftimeAvoids(DashSecondFormat, b, '~');
    assert JoinWith([A, B], '~') == A + "~" + B by {
      assert [A, B][1..] == [B];
    }
    SplitJoin([A, B], '~');
    DashSecondRoundTrip(a);
    DashSecondRoundTrip(b);
  }

  /** A range that reads holds exactly one `~`. */
  lemma HamiTimeSeparator(s: string)
    ensures HamiTime(s).Ok? ==> CountChar(s, '~') == 1
  {
    SplitCount(s, '~');
  }

  // ---------------------------------------------------------------------------
  // Programme pages

  /** An entry of an element's `programInfo`. */
  datatype ProgramInfo = ProgramInfo(hintSE: Option<string>, programName: Option<string>)

  /** An element of a day's page; `programInfo` is `None` when missing. */
  datatype EpgElement = EpgElement(title: Option<string>, programInfo: Option<seq<ProgramInfo>>)

  /** A day's page: `Some(UIInfo[0].elements)` when the body is JSON holding it,
      `None` when reading it raises. */
  type DayReply = Response<Option<seq<EpgElement>>>

  /** The days `request_epg` asks for, today first. */
  const EpgDays: nat := 7

  /** The shape every programme read from the pages has: both times printable on
      days `localize` accepts, no channel id and an empty description. */
  predicate PageProgram(p: Program)
  {
    Timed(p) && Localizable(p.start.date) && Localizable(p.end.date) && p.channelId.None? && p.description == ""
  }

  predicate AllPage(ps: seq<Program>)
  {
    forall i :: 0 <= i < |ps| ==> PageProgram(ps[i])
  }

  /** One element of a page: an element whose `programInfo` is empty adds nothing;
      otherwise the first entry's `hintSE` gives the times, the element's title the
      channel name and `programName` the title, and a missing key or a bad range
      raises. */
  function ElementPrograms(e: EpgElement): (r: Result<seq<Program>>)
    ensures r.Ok? ==> |r.value| <= 1 && AllPage(r.value)
  {
    match e.programInfo
    case None => Raised("KeyError")
    case Some(infos) =>
      if |infos| == 0 then Ok([])
      else
        match infos[0].hintSE
        case None => Raised("KeyError")
        case Some(h) =>
          match HamiTime(h)
          case Raised(r) => Raised(r)
          case Ok(times) =>
            match (e.title, infos[0].programName)
            case (Some(t), Some(n)) => Ok([Program(None, t, n, "", times.0, times.1)])
            case _ => Raised("KeyError")
  }

  /** The element the service writes for a programme. */
  function ElementOf(p: Program): EpgElement
    requires Timed(p)
  {
    EpgElement(Some(p.channelName), Some([ProgramInfo(Some(HintText(p.start, p.end)), Some(p.title))]))
  }

  /** Reading the element written for a programme gives that programme back, unless
      `localize` rejects the day it starts or ends on. */
  lemma ElementProgramsOfElement(p: Program)
    requires Timed(p) && p.channelId.None? && p.description == ""
    ensures ElementPrograms(ElementOf(p)) ==
      if Localizable(p.start.date) && Localizable(p.end.date) then Ok([p]) else Raised("OverflowError")
  {
    HamiTimeRoundTrip(p.start, p.end);
  }

  /** The results of `f` on `xs` one after the other, until the first that raises. */
  function Gather<A>(xs: seq<A>, f: A -> Result<seq<Program>>): Result<seq<Program>>
  {
    if |xs| == 0 then Ok([])
    else
      match f(xs[0])
      case Raised(r) => Raised(r)
      case Ok(ps) =>
        match Gather(xs[1..], f)
        case Raised(r) => Raised(r)
        case Ok(qs) => Ok(ps + qs)
  }

  /** The programmes of steps that all succeed, one list per step. */
  function Values<A>(xs: seq<A>, f: A -> Result<seq<Program>>): (vs: seq<seq<Program>>)
    requires forall i :: 0 <= i < |xs| ==> f(xs[i]).Ok?
    ensures |vs| == |xs| && forall i :: 0 <= i < |xs| ==> vs[i] == f(xs[i]).value
  {
    if |xs| == 0 then [] else [f(xs[0]).value] + Values(xs[1..], f)
  }

  /** Gathering succeeds exactly when every step does, and then gives their
      programmes concatenated. */
  lemma {:induction false} GatherOk<A>(xs: seq<A>, f: A -> Result<seq<Program>>)
    ensures Gather(xs, f).Ok? <==> forall i :: 0 <= i < |xs| ==> f(xs[i]).Ok?
    ensures Gather(xs, f).Ok? ==> Gather(xs, f).value == Concat(Values(xs, f))
  {
    if |xs| > 0 {
      GatherOk(xs[1..], f);
      assert forall i :: 1 <= i < |xs| ==> xs[i] == xs[1..][i - 1];
      if Gather(xs, f).Ok? {
        assert Values(xs, f)[1..] == Values(xs[1..], f);
      }
    }
  }

  /** When gathering raises, it raises what the first failing step raised. */
  lemma {:induction false} GatherRaised<A>(xs: seq<A>, f: A -> Result<seq<Program>>)
    requires Gather(xs, f).Raised?
    ensures exists k :: 0 <= k < |xs| && f(xs[k]) == Raised(Gather(xs, f).reason)
                          && forall j :: 0 <= j < k ==> f(xs[j]).Ok?
  {
    if f(xs[0]).Ok? {
      GatherRaised(xs[1..], f);
      var k :| 0 <= k < |xs| - 1 && f(xs[1..][k]) == Raised(Gather(xs[1..], f).reason)
               && forall j :: 0 <= j < k ==> f(xs[1..][j]).Ok?;
      assert forall j :: 1 <= j < k + 1 ==> xs[j] == xs[1..][j - 1];
      assert f(xs[k + 1]) == Raised(Gather(xs, f).reason);
    }
  }

  /** Gathering steps that give page programmes gives page programmes. */
  lemma {:induction false} GatherPage<A>(xs: seq<A>, f: A -> Result<seq<Program>>)
    requires forall i :: 0 <= i < |xs| ==> f(xs[i]).Ok? ==> AllPage(f(xs[i]).value)
    ensures Gather(xs, f).Ok? ==> AllPage(Gather(xs, f).value)
  {
    if |xs| > 0 && Gather(xs, f).Ok? {
      assert forall i :: 1 <= i < |xs| ==> xs[i] == xs[1..][i - 1];
      GatherPage(xs[1..], f);
      var ps := f(xs[0]).value;
      var qs := Gather(xs[1..], f).value;
      assert forall i :: 0 <= i < |ps + qs| ==> (ps + qs)[i] == if i < |ps| then ps[i] else qs[i - |ps|];
    }
  }

  /** One day's page: a transport failure or an unreadable body raises, a non-200
      answer adds nothing, and otherwise the elements are read in order. */
  function DayPrograms(reply: DayReply): Result<seq<Program>>
  {
    match reply
    case Unreachable => Raised("ConnectionError")
    case Reply(status, body) =>
      if status != 200 then Ok([])
      else
        match body
        case None => Raised("KeyError")
        case Some(es) => Gather(es, ElementPrograms)
  }

  lemma DayProgramsPage(reply: DayReply)
    ensures DayPrograms(reply).Ok? ==> AllPage(DayPrograms(reply).value)
  {
    if reply.IsOk() && reply.body.Some? {
      GatherPage(reply.body.value, ElementPrograms);
    }
  }

  /** Day `i` of `request_epg`, `now(i)` being the date `datetime.now()` gives at that
      turn: the date `i` days on raises `OverflowError` past year 9999 before any
      page is asked for; otherwise the page `day(i)` is read. */
  function DayStep(now: nat -> Today, day: nat -> DayReply, i: nat): Result<seq<Program>>
  {
    if InRange(AddDays(now(i), i)) then DayPrograms(day(i)) else Raised("OverflowError")
  }

  /** The day offsets `range(7)`. */
  function Offsets(): (ks: seq<nat>)
    ensures |ks| == EpgDays && forall i :: 0 <= i < EpgDays ==> ks[i] == i
  {
    seq(EpgDays, i requires 0 <= i => i)
  }

  /** The days of one request as a function of the offset. */
  function Steps(now: nat -> Today, day: nat -> DayReply): nat -> Result<seq<Program>>
  {
    (i: nat) => DayStep(now, day, i)
  }

  /** `request_epg`: the seven days' pages (`day(i)` is the page `i` days from the
      date then), one after the other; any day that raises makes the whole request
      raise. */
  function RequestEpg(now: nat -> Today, day: nat -> DayReply): Result<seq<Program>>
  {
    Gather(Offsets(), Steps(now, day))
  }

  /** Gathering seven steps by offset succeeds exactly when each step does, and then
      gives their programmes in offset order. */
  lemma GatherOffsets(f: nat -> Result<seq<Program>>)
    requires forall i :: 0 <= i < EpgDays ==> f(i).Ok? ==> AllPage(f(i).value)
    ensures Gather(Offsets(), f).Ok? <==> forall i :: 0 <= i < EpgDays ==> f(i).Ok?
    ensures Gather(Offsets(), f).Ok? ==>
      && Gather(Offsets(), f).value == Concat(Values(Offsets(), f))
      && AllPage(Gather(Offsets(), f).value)
  {
    GatherOk(Offsets(), f);
    GatherPage(Offsets(), f);
  }

  lemma DayStepPage(now: nat -> Today, day: nat -> DayReply, i: nat)
    ensures DayStep(now, day, i).Ok? ==> AllPage(DayStep(now, day, i).value)
  {
    DayProgramsPage(day(i));
  }

  lemma StepsPage(now: nat -> Today, day: nat -> DayReply)
    ensures forall i :: 0 <= i < EpgDays ==> Steps(now, day)(i).Ok? ==> AllPage(Steps(now, day)(i).value)
  {
    forall i | 0 <= i < EpgDays
      ensures Steps(now, day)(i).Ok? ==> AllPage(Steps(now, day)(i).value)
    {
      DayStepPage(now, day, i);
    }
  }

  /** A request succeeds exactly when each of the seven days does: its date stays
      within year 9999 and its page reads. It then gives the days' programmes
      concatenated in day order, each a page programme. */
  lemma RequestEpgSpec(now: nat -> Today, day: nat -> DayReply)
    ensures RequestEpg(now, day).Ok? <==> forall i :: 0 <= i < EpgDays ==> DayStep(now, day, i).Ok?
    ensures RequestEpg(now, day).Ok? ==>
      && RequestEpg(now, day).value == Concat(Values(Offsets(), Steps(now, day)))
      && AllPage(RequestEpg(now, day).value)
  {
    StepsPage(now, day);
    GatherOffsets(Steps(now, day));
    assert forall i :: 0 <= i < EpgDays ==> Steps(now, day)(i) == DayStep(now, day, i);
  }

  /** Near the end of year 9999 the request raises: once the date of the last day
      would pass it, no request succeeds. */
  lemma RequestEpgOverflow(now: nat -> Today, day: nat -> DayReply)
    requires !InRange(AddDays(now(EpgDays - 1), EpgDays - 1))
    ensures RequestEpg(now, day).Raised?
  {
    RequestEpgSpec(now, day);
    assert DayStep(now, day, EpgDays - 1).Raised?;
  }

  // ---------------------------------------------------------------------------
  // Retries

  /** `max_retries`. */
  const MaxRetries: nat := 5

  /** `get_programs_with_retry` from attempt `k` on (`request(k)` is attempt `k`):
      the programmes and the number of attempts made. */
  function Retry(request: nat -> Result<seq<Program>>, k: nat): (r: (seq<Program>, nat))
    requires k < MaxRetries
    ensures k < r.1 <= MaxRetries
    decreases MaxRetries - k
  {
    match request(k)
    case Ok(ps) => (ps, k + 1)
    case Raised(_) => if k + 1 < MaxRetries then Retry(request, k + 1) else ([], MaxRetries)
  }

  /** `get_programs_with_retry`: up to five attempts with a 30-second sleep between
      two (sleeps are counted); the first attempt that does not raise gives the
      programmes, and a fifth failure gives none. */
  method GetProgramsWithRetry(request: nat -> Result<seq<Program>>)
    returns (programs: seq<Program>, calls: nat, sleeps: nat)
    ensures 1 <= calls <= MaxRetries && sleeps == calls - 1
    ensures forall k :: 0 <= k < calls - 1 ==> request(k).Raised?
    ensures request(calls - 1).Ok? ==> programs == request(calls - 1).value
    ensures request(calls - 1).Raised? ==> calls == MaxRetries && programs == []
    ensures (programs, calls) == Retry(request, 0)
  {
    var retries: nat := 0;
    calls, sleeps := 0, 0;
    while retries < MaxRetries
      invariant retries <= MaxRetries && calls == retries
      invariant sleeps == if retries < MaxRetries then retries else MaxRetries - 1
      invariant forall k :: 0 <= k < retries ==> request(k).Raised?
      invariant retries < MaxRetries ==> Retry(request, 0) == Retry(request, retries)
      invariant retries == MaxRetries ==> Retry(request, 0) == ([], MaxRetries)
      decreases MaxRetries - retries
    {
      calls := calls + 1;
      var attempt := request(retries);
      if attempt.Ok? {
        programs := attempt.value;
        return;
      }
      retries := retries + 1;
      if retries < MaxRetries {
        sleeps := sleeps + 1;
      }
    }
    programs := [];
  }

  /** What the retries give is what some attempt gave, or nothing. */
  lemma {:induction false} RetryFrom(request: nat -> Result<seq<Program>>, k: nat)
    requires k < MaxRetries
    ensures var ps := Retry(request, k).0;
      ps == [] || exists a :: k <= a < MaxRetries && request(a) == Ok(ps)
    decreases MaxRetries - k
  {
    if request(k).Raised? && k + 1 < MaxRetries {
      RetryFrom(request, k + 1);
    }
  }

  // ---------------------------------------------------------------------------
  // All channels

  /** When each attempt's days are read: `clock(pk, a, i)` is the date of
      `datetime.now()` at day `i` of attempt `a` at the channel with key `pk`. */
  type Clock = (string, nat, nat) -> Today

  /** Attempt `a` at a channel's seven days; `fetch(pk, a, i)` is attempt `a`'s page
      for day `i` of the channel with key `pk`, and `clock(pk, a, i)` the date
      `datetime.now()` gives then. */
  function Attempts(c: HamiChannel, clock: Clock, fetch: (string, nat, nat) -> DayReply): nat -> Result<seq<Program>>
  {
    (a: nat) => RequestEpg((d: nat) => clock(c.contentPk, a, d), (d: nat) => fetch(c.contentPk, a, d))
  }

  /** The programmes the retries give each channel, in channel order. */
  function Fetched(chs: seq<HamiChannel>, clock: Clock, fetch: (string, nat, nat) -> DayReply): (rs: seq<seq<Program>>)
    ensures |rs| == |chs|
  {
    seq(|chs|, i requires 0 <= i < |chs| => Retry(Attempts(chs[i], clock, fetch), 0).0)
  }

  /** Every channel's fetched programmes are page programmes. */
  lemma FetchedPage(chs: seq<HamiChannel>, clock: Clock, fetch: (string, nat, nat) -> DayReply, i: nat)
    requires i < |chs|
    ensures AllPage(Fetched(chs, clock, fetch)[i])
  {
    var request := Attempts(chs[i], clock, fetch);
    RetryFrom(request, 0);
    var ps := Retry(request, 0).0;
    if ps != [] {
      var a :| 0 <= a < MaxRetries && request(a) == Ok(ps);
      RequestEpgSpec((d: nat) => clock(chs[i].contentPk, a, d), (d: nat) => fetch(chs[i].contentPk, a, d));
    }
  }

  /** The `for channel in rawChannels` loop over `channel_programs`: a channel with
      programmes stores them sorted by start under its name, replacing what an
      earlier channel of that name stored; a channel without leaves the map alone. */
  function Store(chs: seq<HamiChannel>, rs: seq<seq<Program>>, m: map<string, seq<Program>>)
    : map<string, seq<Program>>
    requires |rs| == |chs|
  {
    if |chs| == 0 then m else Store(chs[1..], rs[1..], Put(m, chs[0], rs[0]))
  }

  /** One turn of the loop: programmes are stored sorted under the channel's name. */
  function Put(m: map<string, seq<Program>>, c: HamiChannel, ps: seq<Program>): (m': map<string, seq<Program>>)
    ensures |ps| == 0 ==> m' == m
    ensures |ps| > 0 ==> m' == m[c.channelName := SortBy(ps, StartKey)]
  {
    if |ps| > 0 then m[c.channelName := SortBy(ps, StartKey)] else m
  }

  /** A name no channel with programmes carries keeps its old entry, or its absence. */
  lemma {:induction false} StoreUntouched(chs: seq<HamiChannel>, rs: seq<seq<Program>>, m: map<string, seq<Program>>, name: string)
    requires |rs| == |chs|
    requires forall i :: 0 <= i < |chs| && chs[i].channelName == name ==> |rs[i]| == 0
    ensures name in Store(chs, rs, m) <==> name in m
    ensures name in m ==> Store(chs, rs, m)[name] == m[name]
  {
    if |chs| > 0 {
      var m' := Put(m, chs[0], rs[0]);
      assert forall i :: 1 <= i < |chs| ==> chs[i] == chs[1..][i - 1] && rs[i] == rs[1..][i - 1];
      StoreUntouched(chs[1..], rs[1..], m', name);
    }
  }

  /** The last channel of a name that got programmes decides that name's entry: its
      programmes, sorted by start. */
  lemma {:induction false} StoreLast(chs: seq<HamiChannel>, rs: seq<seq<Program>>, m: map<string, seq<Program>>, i: nat)
    requires |rs| == |chs| && i < |chs| && |rs[i]| > 0
    requires forall j :: i < j < |chs| && chs[j].channelName == chs[i].channelName ==> |rs[j]| == 0
    ensures chs[i].channelName in Store(chs, rs, m)
    ensures Store(chs, rs, m)[chs[i].channelName] == SortBy(rs[i], StartKey)
  {
    var m' := Put(m, chs[0], rs[0]);
    var name := chs[i].channelName;
    if i == 0 {
      assert forall j :: 0 <= j < |chs| - 1 && chs[1..][j].channelName == name ==> |rs[1..][j]| == 0 by {
        assert forall j :: 0 <= j < |chs| - 1 ==> chs[1..][j] == chs[j + 1] && rs[1..][j] == rs[j + 1];
      }
      StoreUntouched(chs[1..], rs[1..], m', name);
    } else {
      assert chs[1..][i - 1] == chs[i] && rs[1..][i - 1] == rs[i];
      assert forall j :: i - 1 < j < |chs| - 1 && chs[1..][j].channelName == name ==> |rs[1..][j]| == 0 by {
        assert forall j :: i - 1 < j < |chs| - 1 ==> chs[1..][j] == chs[j + 1] && rs[1..][j] == rs[j + 1];
      }
      StoreLast(chs[1..], rs[1..], m', i - 1);
    }
  }

  /** The index of the last channel named `name` that got programmes, if any. */
  function LastWith(chs: seq<HamiChannel>, rs: seq<seq<Program>>, name: string): (k: Option<nat>)
    requires |rs| == |chs|
    ensures k.Some? ==> k.value < |chs| && chs[k.value].channelName == name && |rs[k.value]| > 0
    ensures k.Some? ==> forall j :: k.value < j < |chs| && chs[j].channelName == name ==> |rs[j]| == 0
    ensures k.None? ==> forall j :: 0 <= j < |chs| && chs[j].channelName == name ==> |rs[j]| == 0
  {
    if |chs| == 0 then None
    else
      var n := |chs| - 1;
      if chs[n].channelName == name && |rs[n]| > 0 then Some(n)
      else LastWith(chs[..n], rs[..n], name)
  }

  /** A name has an entry exactly when some channel of that name got programmes; the
      entry is then the last such channel's programmes sorted by start. */
  lemma StoreEntry(chs: seq<HamiChannel>, rs: seq<seq<Program>>, name: string)
    requires |rs| == |chs|
    ensures name in Store(chs, rs, map[]) <==> LastWith(chs, rs, name).Some?
    ensures name in Store(chs, rs, map[]) ==>
      Store(chs, rs, map[])[name] == SortBy(rs[LastWith(chs, rs, name).value], StartKey)
  {
    var k := LastWith(chs, rs, name);
    if k.Some? {
      StoreLast(chs, rs, map[], k.value);
    } else {
      StoreUntouched(chs, rs, map[], name);
    }
  }

  /** `request_all_epg`: the channel list, and for each name the sorted programmes of
      the last channel of that name whose retries gave any. A channel list that
      raises makes the whole run raise. */
  function RequestAllEpg(reply: LayoutReply, clock: Clock, fetch: (string, nat, nat) -> DayReply)
    : Result<(seq<HamiChannel>, map<string, seq<Program>>)>
  {
    match RequestChannelList(reply)
    case Raised(r) => Raised(r)
    case Ok(chs) => Ok((chs, Store(chs, Fetched(chs, clock, fetch), map[])))
  }

  /** Each entry of the map is a channel's programmes (the last channel of that name
      that got any), in start order, keeping the order of equal starts, and only
      such channels have entries. */
  lemma RequestAllEpgEntry(reply: LayoutReply, clock: Clock, fetch: (string, nat, nat) -> DayReply, name: string)
    requires RequestAllEpg(reply, clock, fetch).Ok?
    ensures var chs := RequestAllEpg(reply, clock, fetch).value.0;
      var m := RequestAllEpg(reply, clock, fetch).value.1;
      var rs := Fetched(chs, clock, fetch);
      && chs == RequestChannelList(reply).value
      && (name in m <==> exists i :: 0 <= i < |chs| && chs[i].channelName == name && |rs[i]| > 0)
      && (name in m ==>
            && SortedBy(m[name], StartKey)
            && AllPage(m[name])
            && exists i :: 0 <= i < |chs| && chs[i].channelName == name
                 && multiset(m[name]) == multiset(rs[i])
                 && forall key :: WithKey(m[name], StartKey, key) == WithKey(rs[i], StartKey, key))
  {
    var chs := RequestAllEpg(reply, clock, fetch).value.0;
    var rs := Fetched(chs, clock, fetch);
    StoreEntry(chs, rs, name);
    var k := LastWith(chs, rs, name);
    if k.Some? {
      var i := k.value;
      var s := SortBy(rs[i], StartKey);
      FetchedPage(chs, clock, fetch, i);
      forall key
        ensures WithKey(s, StartKey, key) == WithKey(rs[i], StartKey, key)
      {
        SortStable(rs[i], StartKey, key);
      }
      forall j | 0 <= j < |s|
        ensures PageProgram(s[j])
      {
        assert s[j] in multiset(rs[i]);
      }
    }
  }

  /** Every entry of the map holds page programmes. */
  lemma RequestAllEpgPage(reply: LayoutReply, clock: Clock, fetch: (string, nat, nat) -> DayReply)
    requires RequestAllEpg(reply, clock, fetch).Ok?
    ensures forall name :: name in RequestAllEpg(reply, clock, fetch).value.1 ==>
      AllTimed(RequestAllEpg(reply, clock, fetch).value.1[name])
  {
    forall name | name in RequestAllEpg(reply, clock, fetch).value.1
      ensures AllTimed(RequestAllEpg(reply, clock, fetch).value.1[name])
    {
      RequestAllEpgEntry(reply, clock, fetch, name);
    }
  }

  // ---------------------------------------------------------------------------
  // The text guide

  /** `f"{start_time} {program_name}"` with the start as `%H:%M`. */
  function ProgramLine(p: Program): string
    requires Timed(p)
  {
    Strftime(ClockFormat, p.start) + " " + p.title
  }

  /** A programme line is the five-character clock of the start, one space and the
      title; the clock reads back as the start's hour and minute. */
  lemma ProgramLineRead(p: Program)
    requires Timed(p)
    ensures var line := ProgramLine(p);
      && |line| == 6 + |p.title|
      && line[..5] == Strftime(ClockFormat, p.start)
      && line[5] == ' '
      && line[6..] == p.title
      && Strptime(ClockFormat, line[..5]) == Some(DateTime(Date(1900, 1, 1), p.start.hour, p.start.minute, 0))
  {
    ClockRoundTrip(p.start);
  }

  /** The lines of a channel's programmes, in order. */
  function ProgramLines(ps: seq<Program>): (lines: seq<string>)
    requires AllTimed(ps)
    ensures |lines| == |ps|
  {
    seq(|ps|, i requires 0 <= i < |ps| && Timed(ps[i]) => ProgramLine(ps[i]))
  }

  predicate TimedValues(m: map<string, seq<Program>>)
  {
    forall name :: name in m ==> AllTimed(m[name])
  }

  /** `channel_programs.get(channel_name, [])`. */
  function ChannelPrograms(m: map<string, seq<Program>>, name: string): seq<Program>
  {
    if name in m then m[name] else []
  }

  /** The lines `generate_epg_file` writes, one `\n`-terminated line each: per channel
      its name, then its programme lines. */
  function EpgLines(chs: seq<HamiChannel>, m: map<string, seq<Program>>): seq<string>
    requires TimedValues(m)
  {
    if |chs| == 0 then []
    else
      var name := chs[0].channelName;
      [name] + ProgramLines(ChannelPrograms(m, name)) + EpgLines(chs[1..], m)
  }

  /** Two runs of channels write their blocks one after the other. */
  lemma {:induction false} EpgLinesAppend(a: seq<HamiChannel>, b: seq<HamiChannel>, m: map<string, seq<Program>>)
    requires TimedValues(m)
    ensures EpgLines(a + b, m) == EpgLines(a, m) + EpgLines(b, m)
  {
    if |a| > 0 {
      assert (a + b)[1..] == a[1..] + b;
      EpgLinesAppend(a[1..], b, m);
    } else {
      assert a + b == b;
    }
  }

  /** Each channel of the list has its own block at its place: its name, then one
      line per stored programme, in stored order. */
  lemma EpgLinesBlock(chs: seq<HamiChannel>, m: map<string, seq<Program>>, i: nat)
    requires TimedValues(m) && i < |chs|
    ensures EpgLines(chs, m) ==
      EpgLines(chs[..i], m) + [chs[i].channelName] + ProgramLines(ChannelPrograms(m, chs[i].channelName))
      + EpgLines(chs[i + 1..], m)
  {
    assert chs == chs[..i] + chs[i..];
    EpgLinesAppend(chs[..i], chs[i..], m);
    assert chs[i..][1..] == chs[i + 1..];
  }

  /** `main`: the guide's lines, or `None` when the channel list raises. */
  function MainOutput(reply: LayoutReply, clock: Clock, fetch: (string, nat, nat) -> DayReply): (r: Option<seq<string>>)
    ensures r.None? <==> RequestChannelList(reply).Raised?
  {
    match RequestAllEpg(reply, clock, fetch)
    case Raised(_) => None
    case Ok(all) =>
      RequestAllEpgPage(reply, clock, fetch);
      Some(EpgLines(all.0, all.1))
  }

  /** The guide is written exactly when the channel list reads; each listed channel
      then has its block with the lines of its stored programmes, which are in start
      order. */
  lemma MainBlock(reply: LayoutReply, clock: Clock, fetch: (string, nat, nat) -> DayReply, i: nat)
    requires RequestChannelList(reply).Ok? && i < |RequestChannelList(reply).value|
    ensures MainOutput(reply, clock, fetch).Some?
    ensures var chs := RequestChannelList(reply).value;
      var m := RequestAllEpg(reply, clock, fetch).value.1;
      var ps := ChannelPrograms(m, chs[i].channelName);
      && TimedValues(m)
      && SortedBy(ps, StartKey)
      && MainOutput(reply, clock, fetch).value ==
           EpgLines(chs[..i], m) + [chs[i].channelName] + ProgramLines(ps) + EpgLines(chs[i + 1..], m)
  {
    var chs := RequestChannelList(reply).value;
    var m := RequestAllEpg(reply, clock, fetch).value.1;
    RequestAllEpgPage(reply, clock, fetch);
    RequestAllEpgEntry(reply, clock, fetch, chs[i].channelName);
    EpgLinesBlock(chs, m, i);
  }
}
