/** `scripts/tbc_epg.py`: the same TBC pages read with a Cloudflare-aware client and,
    when that fails, with a headless browser; seven days over every channel; and its
    own XMLTV writer. */
module TbcEpg {
  import opened Outcome
  import opened Text
  import opened Civil
  import opened TimeFormat
  import opened Schedule
  import opened TbcPage
  import opened Xmltv

  /** The number of days fetched, today included (`range(7)`). */
  const Days: nat := 7

  /** The title of an item without a `<p>`. */
  const NoTitle: string := "無標題"

  /** The siblings of a channel page the day lookup walks: an `h2.program_title`
      heading with its `.string` (`None` when it has no single text child), a
      `ul.list_program2` list, or anything else. */
  datatype Node = ProgramTitle(text: Option<string>) | ProgramList(items: seq<ScheduleItem>) | OtherNode

  /** Index of the first heading whose string is `date`, or the page length. */
  function HeaderAt(page: seq<Node>, date: string): (n: nat)
    ensures n <= |page|
  {
    if |page| == 0 then 0
    else if page[0] == ProgramTitle(Some(date)) then 0
    else 1 + HeaderAt(page[1..], date)
  }

  /** The items of the first programme list at index `i` or later. */
  function ListFrom(page: seq<Node>, i: nat): Option<seq<ScheduleItem>>
    requires i <= |page|
    decreases |page| - i
  {
    if i == |page| then None
    else if page[i].ProgramList? then Some(page[i].items)
    else ListFrom(page, i + 1)
  }

  /** `soup.find("h2", class_="program_title", string=date)` and then
      `find_next_sibling("ul", class_="list_program2")`: the items listed for the
      day, or nothing when either is missing. */
  function DayItems(page: seq<Node>, date: string): Option<seq<ScheduleItem>>
  {
    var h := HeaderAt(page, date);
    if h == |page| then None else ListFrom(page, h + 1)
  }

  lemma {:induction false} HeaderAtSpec(page: seq<Node>, date: string)
    ensures forall k :: 0 <= k < HeaderAt(page, date) ==> page[k] != ProgramTitle(Some(date))
    ensures HeaderAt(page, date) < |page| ==> page[HeaderAt(page, date)] == ProgramTitle(Some(date))
  {
    if |page| > 0 && page[0] != ProgramTitle(Some(date)) {
      HeaderAtSpec(page[1..], date);
      assert forall k :: 1 <= k < |page| ==> page[k] == page[1..][k - 1];
    }
  }

  lemma {:induction false} ListFromSpec(page: seq<Node>, i: nat)
    requires i <= |page|
    ensures ListFrom(page, i).None? ==> forall k :: i <= k < |page| ==> !page[k].ProgramList?
    ensures ListFrom(page, i).Some? ==>
      exists j :: i <= j < |page| && page[j] == ProgramList(ListFrom(page, i).value)
                  && forall k :: i <= k < j ==> !page[k].ProgramList?
    decreases |page| - i
  {
    if i < |page| && !page[i].ProgramList? {
      ListFromSpec(page, i + 1);
    }
  }

  /** The day's items are those of the first list after the first heading of the
      day, with no other list in between; there are none when no heading names the
      day or no list follows it. */
  lemma DayItemsSpec(page: seq<Node>, date: string)
    ensures DayItems(page, date).Some? <==>
      exists h, j :: 0 <= h < j < |page| && page[h] == ProgramTitle(Some(date)) && page[j].ProgramList?
    ensures DayItems(page, date).Some? ==>
      exists h, j :: && 0 <= h < j < |page|
                     && page[h] == ProgramTitle(Some(date)) && page[j] == ProgramList(DayItems(page, date).value)
                     && (forall k :: 0 <= k < h ==> page[k] != ProgramTitle(Some(date)))
                     && (forall k :: h < k < j ==> !page[k].ProgramList?)
  {
    var h := HeaderAt(page, date);
    HeaderAtSpec(page, date);
    if h < |page| {
      ListFromSpec(page, h + 1);
    }
    if exists h', j :: 0 <= h' < j < |page| && page[h'] == ProgramTitle(Some(date)) && page[j].ProgramList? {
      var h', j :| 0 <= h' < j < |page| && page[h'] == ProgramTitle(Some(date)) && page[j].ProgramList?;
      assert h <= h';
    }
  }

  /** What reading one `<li>` gives: skipped (no `HH:MM~HH:MM`), a programme, a
      `ValueError` from `strptime`, or an `OverflowError`. That comes from moving the
      end past year 9999, or from `localize` on a day it does not accept. */
  datatype ItemOutcome = Skipped | Kept(program: Program) | BadTime | Overflow

  /** The text of the item's `<p>`, stripped once, or the fallback title. */
  function PageTitle(li: ScheduleItem): string
  {
    match li.para
    case None => NoTitle
    case Some(pieces) => WholeText(pieces)
  }

  /** One `<li>` of channel `channelId` on `day`: both clock readings parsed with the
      day's date, the end moved one day on only when it is strictly before the start,
      the channel name kept as it stands. */
  function ReadItem(li: ScheduleItem, day: Date, channelId: string): ItemOutcome
    requires InRange(day)
  {
    match SearchRange(Strip(OrEmpty(li.time)))
    case None => Skipped
    case Some(m) =>
      var date := SlashDate(day);
      match ReadClock(date, m.startHour, m.startMinute)
      case None => BadTime
      case Some(start) =>
        match ReadClock(date, m.endHour, m.endMinute)
        case None => BadTime
        case Some(end0) =>
          var end := if Earlier(end0, start) then ShiftDay(end0) else end0;
          if !Localizable(start.date) || !Localizable(end.date) then Overflow
          else Kept(Program(Some(channelId), OrEmpty(li.channelName), PageTitle(li), Strip(OrEmpty(li.desc)), start, end))
  }

  /** The outcome of the clock readings taken at their digit values, without
      `strptime`: `None` for a `ValueError`, the end day otherwise. */
  function ClockEnd(day: Date, m: TimeRange): Option<Date>
    requires InRange(day) && m.Digits()
  {
    if !ClockFits(m.startHour, m.startMinute) || !ClockFits(m.endHour, m.endMinute) then None
    else if ClockMinutes(m.endHour, m.endMinute) < ClockMinutes(m.startHour, m.startMinute) then Some(NextDay(day))
    else Some(day)
  }

  /** The item read through `ClockEnd` instead of `strptime`. */
  function DirectItem(li: ScheduleItem, day: Date, channelId: string): ItemOutcome
    requires InRange(day)
  {
    var text := Strip(OrEmpty(li.time));
    SearchRangeDigits(text);
    match SearchRange(text)
    case None => Skipped
    case Some(m) =>
      match ClockEnd(day, m)
      case None => BadTime
      case Some(endDay) =>
        if !Localizable(day) || !Localizable(endDay) then Overflow
        else
          Kept(Program(Some(channelId), OrEmpty(li.channelName), PageTitle(li), Strip(OrEmpty(li.desc)),
                       DateTime(day, Value(m.startHour), Value(m.startMinute), 0),
                       DateTime(endDay, Value(m.endHour), Value(m.endMinute), 0)))
  }

  lemma ReadItemIsDirect(li: ScheduleItem, day: Date, channelId: string)
    requires InRange(day)
    ensures ReadItem(li, day, channelId) == DirectItem(li, day, channelId)
  {
    var text := Strip(OrEmpty(li.time));
    SearchRangeDigits(text);
    if SearchRange(text).Some? {
      var m := SearchRange(text).value;
      SlashMinuteOfDigits(day, m.startHour, m.startMinute);
      SlashMinuteOfDigits(day, m.endHour, m.endMinute);
      if ClockFits(m.startHour, m.startMinute) && ClockFits(m.endHour, m.endMinute) {
        var start := DateTime(day, Value(m.startHour), Value(m.startMinute), 0);
        var end0 := DateTime(day, Value(m.endHour), Value(m.endMinute), 0);
        EarlierIsInstantOrder(end0, start);
      }
    }
  }

  /** What every kept item satisfies: it starts on the day read, on the minute, and
      ends no earlier than it starts and less than a day later (a programme whose
      end reads the same as its start lasts no time at all); its title is stripped. */
  lemma ReadItemFacts(li: ScheduleItem, day: Date, channelId: string)
    requires InRange(day)
    ensures var r := ReadItem(li, day, channelId);
      r.Kept? ==>
        && Timed(r.program)
        && r.program.start.date == day && r.program.start.second == 0
        && 0 <= Instant(r.program.end) - Instant(r.program.start) < SecondsPerDay
        && Strip(r.program.title) == r.program.title
        && r.program.channelId == Some(channelId) && r.program.channelName == OrEmpty(li.channelName)
  {
    ReadItemIsDirect(li, day, channelId);
    var text := Strip(OrEmpty(li.time));
    SearchRangeDigits(text);
    if DirectItem(li, day, channelId).Kept? {
      ClockEndFacts(day, SearchRange(text).value);
      PageTitleTrimmed(li);
    }
  }

  /** Clock readings that fit start on the day and end on it or the next day, no
      earlier and less than a day after the start. */
  lemma ClockEndFacts(day: Date, m: TimeRange)
    requires InRange(day) && m.Digits() && ClockEnd(day, m).Some? && ClockEnd(day, m).value.year <= 9999
    ensures var start := DateTime(day, Value(m.startHour), Value(m.startMinute), 0);
      var end := DateTime(ClockEnd(day, m).value, Value(m.endHour), Value(m.endMinute), 0);
      && Printable(start) && Printable(end)
      && 0 <= Instant(end) - Instant(start) < SecondsPerDay
  {
    var endDay := ClockEnd(day, m).value;
    if endDay != day {
      assert Ordinal(endDay) == Ordinal(day) + 1;
      InRangeBefore(day, endDay);
    }
  }

  lemma PageTitleTrimmed(li: ScheduleItem)
    ensures Strip(PageTitle(li)) == PageTitle(li)
  {
    if li.para.Some? {
      StripIdempotent(Joined(li.para.value));
    } else {
      assert NoTitle == "無標題";
      StripIdempotent(NoTitle);
      assert Strip(NoTitle) == NoTitle by {
        assert !IsSpace(NoTitle[0]) && !IsSpace(NoTitle[|NoTitle| - 1]);
        StripTrimmed(NoTitle);
      }
    }
  }

  /** An item whose `time` is exactly `sh:sm~eh:em` with clock digits is kept exactly
      when `localize` accepts both ends' days, and raises `OverflowError` otherwise.
      A kept item has exactly those clock readings, the end on the next day when its
      reading is earlier than the start's. */
  lemma ReadItemOfClock(li: ScheduleItem, day: Date, channelId: string, r: TimeRange)
    requires InRange(day) && r.Digits()
    requires Strip(OrEmpty(li.time)) == r.Text()
    requires ClockFits(r.startHour, r.startMinute) && ClockFits(r.endHour, r.endMinute)
    ensures var endDay := if ClockMinutes(r.endHour, r.endMinute) < ClockMinutes(r.startHour, r.startMinute)
                          then NextDay(day) else day;
      var o := ReadItem(li, day, channelId);
      && (o.Kept? <==> Localizable(day) && Localizable(endDay))
      && (!o.Kept? ==> o.Overflow?)
      && (o.Kept? ==>
            && o.program.start == DateTime(day, Value(r.startHour), Value(r.startMinute), 0)
            && o.program.end == DateTime(endDay, Value(r.endHour), Value(r.endMinute), 0))
  {
    ReadItemIsDirect(li, day, channelId);
    SearchRangeOfText(r);
    assert SearchRange(Strip(OrEmpty(li.time))) == Some(r);
  }

  /** Whether an outcome ends the loop: an `OverflowError` always does; a
      `ValueError` only in the browser loop, which has no `except ValueError`. */
  predicate Stops(o: ItemOutcome, lenient: bool)
  {
    o.Overflow? || (o.BadTime? && !lenient)
  }

  /** The programme of a kept item. */
  function KeptProgram(o: ItemOutcome): Option<Program>
  {
    if o.Kept? then Some(o.program) else None
  }

  /** What reading each item gives, in page order. */
  function Outcomes(items: seq<ScheduleItem>, day: Date, channelId: string): seq<ItemOutcome>
    requires InRange(day)
  {
    seq(|items|, i requires 0 <= i < |items| => ReadItem(items[i], day, channelId))
  }

  /** The item loop over what the items give: the programmes read until an item
      stops it, and whether one did. `lenient` is the client loop, which catches
      `ValueError` and goes on. */
  function Run(os: seq<ItemOutcome>, lenient: bool): (seq<Program>, bool)
  {
    if |os| == 0 then ([], false)
    else if Stops(os[0], lenient) then ([], true)
    else
      var rest := Run(os[1..], lenient);
      ((if os[0].Kept? then [os[0].program] else []) + rest.0, rest.1)
  }

  /** Index of the first outcome that stops the loop, or the outcome count. */
  function FirstStop(os: seq<ItemOutcome>, lenient: bool): (n: nat)
    ensures n <= |os|
  {
    if |os| == 0 then 0
    else if Stops(os[0], lenient) then 0
    else 1 + FirstStop(os[1..], lenient)
  }

  lemma {:induction false} FirstStopSpec(os: seq<ItemOutcome>, lenient: bool)
    ensures forall k :: 0 <= k < FirstStop(os, lenient) ==> !Stops(os[k], lenient)
    ensures FirstStop(os, lenient) < |os| ==> Stops(os[FirstStop(os, lenient)], lenient)
  {
    if |os| > 0 && !Stops(os[0], lenient) {
      FirstStopSpec(os[1..], lenient);
      assert forall k :: 1 <= k < |os| ==> os[k] == os[1..][k - 1];
    }
  }

  /** The loop keeps the programmes of the items before the first one that stops it,
      in order, and reports a stop exactly when there is such an item. */
  lemma {:induction false} RunSpec(os: seq<ItemOutcome>, lenient: bool)
    ensures var n := FirstStop(os, lenient);
      && Run(os, lenient).0 == FilterMap(os[..n], KeptProgram)
      && (Run(os, lenient).1 <==> n < |os|)
  {
    var n := FirstStop(os, lenient);
    if |os| > 0 && !Stops(os[0], lenient) {
      RunSpec(os[1..], lenient);
      assert os[..n] == [os[0]] + os[1..][..n - 1];
      assert os[..n][1..] == os[1..][..n - 1];
    } else if |os| > 0 {
      assert os[..n] == [];
    }
  }

  /** Every programme the loop keeps was read from one of its items. */
  lemma RunSound(os: seq<ItemOutcome>, lenient: bool, p: Program)
    requires p in Run(os, lenient).0
    ensures exists i :: 0 <= i < |os| && os[i] == Kept(p)
  {
    var n := FirstStop(os, lenient);
    RunSpec(os, lenient);
    FilterMapMembers(os[..n], KeptProgram, p);
    var i :| 0 <= i < n && KeptProgram(os[..n][i]) == Some(p);
    assert os[..n][i] == os[i];
  }

  /** The loop over the items of a list. */
  function RunItems(items: seq<ScheduleItem>, day: Date, channelId: string, lenient: bool): (seq<Program>, bool)
    requires InRange(day)
  {
    Run(Outcomes(items, day, channelId), lenient)
  }

  lemma RunItemsSound(items: seq<ScheduleItem>, day: Date, channelId: string, lenient: bool, p: Program)
    requires InRange(day) && p in RunItems(items, day, channelId, lenient).0
    ensures exists li :: li in items && ReadItem(li, day, channelId) == Kept(p)
  {
    var os := Outcomes(items, day, channelId);
    RunSound(os, lenient, p);
    var i :| 0 <= i < |os| && os[i] == Kept(p);
    assert items[i] in items;
  }

  /** The browser attempt: nothing more than what the client already read when the
      browser cannot be started or the page does not load (`None`), or the day is not
      on the page; otherwise the items read until the first `ValueError` or
      `OverflowError`, after what the client already read. */
  function Fallback(prefix: seq<Program>, browser: Option<seq<Node>>, day: Date, channelId: string): seq<Program>
    requires InRange(day)
  {
    match browser
    case None => prefix
    case Some(page) =>
      match DayItems(page, SlashDate(day))
      case None => prefix
      case Some(items) => prefix + RunItems(items, day, channelId, false).0
  }

  /** `get_epgs_tbc`: the client's page when it came back with status 200, the browser's
      when it did not; the browser also when an item overflowed the client's loop. */
  function GetEpgs(cloud: Response<seq<Node>>, browser: Option<seq<Node>>, day: Date, channelId: string): seq<Program>
    requires InRange(day)
  {
    if !cloud.IsOk() then Fallback([], browser, day, channelId)
    else
      match DayItems(cloud.body, SlashDate(day))
      case None => []
      case Some(items) =>
        var (ps, stopped) := RunItems(items, day, channelId, true);
        if stopped then Fallback(ps, browser, day, channelId) else ps
  }

  /** Every programme of one channel and day was read from an item of the client's or
      the browser's page for that day, and has the facts of a kept item. */
  lemma GetEpgsSound(cloud: Response<seq<Node>>, browser: Option<seq<Node>>, day: Date, channelId: string, p: Program)
    requires InRange(day) && p in GetEpgs(cloud, browser, day, channelId)
    ensures exists li :: ReadItem(li, day, channelId) == Kept(p)
    ensures Timed(p) && p.start.date == day && p.channelId == Some(channelId)
    ensures 0 <= Instant(p.end) - Instant(p.start) < SecondsPerDay
  {
    var li := GetEpgsSource(cloud, browser, day, channelId, p);
    ReadItemFacts(li, day, channelId);
  }

  lemma GetEpgsSource(cloud: Response<seq<Node>>, browser: Option<seq<Node>>, day: Date, channelId: string, p: Program)
      returns (li: ScheduleItem)
    requires InRange(day) && p in GetEpgs(cloud, browser, day, channelId)
    ensures ReadItem(li, day, channelId) == Kept(p)
  {
    var date := SlashDate(day);
    var prefix: seq<Program> := [];
    if cloud.IsOk() {
      var items := DayItems(cloud.body, date).value;
      prefix := RunItems(items, day, channelId, true).0;
      if p in prefix {
        RunItemsSound(items, day, channelId, true, p);
        li :| li in items && ReadItem(li, day, channelId) == Kept(p);
        return;
      }
    }
    var items := DayItems(browser.value, date).value;
    RunItemsSound(items, day, channelId, false, p);
    li :| li in items && ReadItem(li, day, channelId) == Kept(p);
  }

  /** When the client's page lists the day and no item overflows, the result is every
      item the client could read, whatever the browser would give. */
  lemma GetEpgsOfClient(cloud: Response<seq<Node>>, browser: Option<seq<Node>>, day: Date, channelId: string)
    requires InRange(day) && cloud.IsOk() && DayItems(cloud.body, SlashDate(day)).Some?
    requires var items := DayItems(cloud.body, SlashDate(day)).value;
      forall i :: 0 <= i < |items| ==> !ReadItem(items[i], day, channelId).Overflow?
    ensures GetEpgs(cloud, browser, day, channelId)
         == FilterMap(Outcomes(DayItems(cloud.body, SlashDate(day)).value, day, channelId), KeptProgram)
  {
    var items := DayItems(cloud.body, SlashDate(day)).value;
    var os := Outcomes(items, day, channelId);
    assert forall i :: 0 <= i < |os| ==> !os[i].Overflow?;
    LenientRunComplete(os);
  }

  /** The client loop reads every item when none overflows. */
  lemma LenientRunComplete(os: seq<ItemOutcome>)
    requires forall i :: 0 <= i < |os| ==> !os[i].Overflow?
    ensures Run(os, true) == (FilterMap(os, KeptProgram), false)
  {
    RunSpec(os, true);
    FirstStopSpec(os, true);
    assert os[..|os|] == os;
  }

  /** The client's programmes are kept when it falls back: if the browser loads the
      same page and no `ValueError` comes before the overflow, the programmes before
      the overflowing item are listed twice. */
  lemma FallbackRepeats(cloud: Response<seq<Node>>, day: Date, channelId: string)
    requires InRange(day) && cloud.IsOk() && DayItems(cloud.body, SlashDate(day)).Some?
    requires var os := Outcomes(DayItems(cloud.body, SlashDate(day)).value, day, channelId);
      FirstStop(os, false) == FirstStop(os, true) < |os|
    ensures var os := Outcomes(DayItems(cloud.body, SlashDate(day)).value, day, channelId);
      var before := FilterMap(os[..FirstStop(os, true)], KeptProgram);
      GetEpgs(cloud, Some(cloud.body), day, channelId) == before + before
  {
    var os := Outcomes(DayItems(cloud.body, SlashDate(day)).value, day, channelId);
    RunSpec(os, true);
    RunSpec(os, false);
  }

  /** What one channel adds to a day: the programmes of its page. `fetch(id, k)` is
      what the client and the browser give for channel `id` on day `k`. */
  function ChannelDay(c: TbcChannel, day: Date, k: nat, fetch: (string, nat) -> (Response<seq<Node>>, Option<seq<Node>>)): seq<Program>
    requires InRange(day)
  {
    GetEpgs(fetch(IdOf(c), k).0, fetch(IdOf(c), k).1, day, IdOf(c))
  }

  /** The programmes of one day over every channel, in channel order. */
  function DayPrograms(channels: seq<TbcChannel>, day: Date, k: nat, fetch: (string, nat) -> (Response<seq<Node>>, Option<seq<Node>>)): seq<Program>
    requires InRange(day)
  {
    if |channels| == 0 then []
    else ChannelDay(channels[0], day, k, fetch) + DayPrograms(channels[1..], day, k, fetch)
  }

  /** Each channel's part of one day, indexed like the channels. */
  function ChannelLists(channels: seq<TbcChannel>, day: Date, k: nat, fetch: (string, nat) -> (Response<seq<Node>>, Option<seq<Node>>)): seq<seq<Program>>
    requires InRange(day)
  {
    seq(|channels|, i requires 0 <= i < |channels| => ChannelDay(channels[i], day, k, fetch))
  }

  /** The day's programmes are the channels' parts one after another, in channel
      order. */
  lemma {:induction false} DayProgramsInOrder(channels: seq<TbcChannel>, day: Date, k: nat, fetch: (string, nat) -> (Response<seq<Node>>, Option<seq<Node>>))
    requires InRange(day)
    ensures DayPrograms(channels, day, k, fetch) == Concat(ChannelLists(channels, day, k, fetch))
  {
    if |channels| > 0 {
      DayProgramsInOrder(channels[1..], day, k, fetch);
      assert ChannelLists(channels, day, k, fetch)[1..] == ChannelLists(channels[1..], day, k, fetch);
    }
  }

  /** Every channel has the programmes of its page among the day's. */
  lemma DayProgramsComplete(channels: seq<TbcChannel>, day: Date, k: nat, fetch: (string, nat) -> (Response<seq<Node>>, Option<seq<Node>>), i: nat, p: Program)
    requires InRange(day) && i < |channels|
    ensures p in GetEpgs(fetch(IdOf(channels[i]), k).0, fetch(IdOf(channels[i]), k).1, day, IdOf(channels[i]))
      ==> p in DayPrograms(channels, day, k, fetch)
  {
    DayProgramsInOrder(channels, day, k, fetch);
    ConcatMembers(ChannelLists(channels, day, k, fetch), p);
    if p in GetEpgs(fetch(IdOf(channels[i]), k).0, fetch(IdOf(channels[i]), k).1, day, IdOf(channels[i])) {
      assert p in ChannelLists(channels, day, k, fetch)[i];
    }
  }

  /** The programmes of `days` fetched one day after another, the first being day `k`
      of the run. */
  function Collect(channels: seq<TbcChannel>, days: seq<Date>, k: nat,
                   fetch: (string, nat) -> (Response<seq<Node>>, Option<seq<Node>>)): seq<Program>
    requires forall i :: 0 <= i < |days| ==> InRange(days[i])
  {
    if |days| == 0 then []
    else DayPrograms(channels, days[0], k, fetch) + Collect(channels, days[1..], k + 1, fetch)
  }

  /** A day's programmes as a function of the date and its position in the run. */
  function DayOf(channels: seq<TbcChannel>, fetch: (string, nat) -> (Response<seq<Node>>, Option<seq<Node>>)): (Date, nat) --> seq<Program>
  {
    (d: Date, n: nat) requires InRange(d) => DayPrograms(channels, d, n, fetch)
  }

  lemma DayOfApplied(channels: seq<TbcChannel>, day: Date, k: nat, fetch: (string, nat) -> (Response<seq<Node>>, Option<seq<Node>>))
    requires InRange(day)
    ensures DayOf(channels, fetch).requires(day, k) && DayOf(channels, fetch)(day, k) == DayPrograms(channels, day, k, fetch)
  {
  }

  /** The day lists of `days`, day `j` requested as day `k + j` of the run. */
  function DayLists(channels: seq<TbcChannel>, days: seq<Date>, k: nat, fetch: (string, nat) -> (Response<seq<Node>>, Option<seq<Node>>)): seq<seq<Program>>
    requires forall i :: 0 <= i < |days| ==> InRange(days[i])
  {
    Numbered(DayOf(channels, fetch), days, k)
  }

  /** The collected programmes are the days' lists one after another, in day order. */
  lemma {:induction false} CollectInOrder(channels: seq<TbcChannel>, days: seq<Date>, k: nat, fetch: (string, nat) -> (Response<seq<Node>>, Option<seq<Node>>))
    requires forall i :: 0 <= i < |days| ==> InRange(days[i])
    ensures Collect(channels, days, k, fetch) == Concat(DayLists(channels, days, k, fetch))
  {
    if |days| > 0 {
      CollectInOrder(channels, days[1..], k + 1, fetch);
      assert DayLists(channels, days, k, fetch)
          == [DayPrograms(channels, days[0], k, fetch)] + DayLists(channels, days[1..], k + 1, fetch);
    }
  }

  /** `get_tbc_epg`: nothing when the channel list is empty; otherwise the channels
      and the programmes of seven days from `today`. A date past year 9999 raises
      `OverflowError`. */
  function GetTbcEpg(channels: seq<TbcChannel>, today: Date,
                     fetch: (string, nat) -> (Response<seq<Node>>, Option<seq<Node>>)): Result<(seq<TbcChannel>, seq<Program>)>
    requires InRange(today)
  {
    if |channels| == 0 then Ok(([], []))
    else if Span(today, Days)[Days - 1].year > 9999 then Raised("OverflowError")
    else
      SpanInRange(today, Days);
      Ok((channels, Collect(channels, Span(today, Days), 0, fetch)))
  }

  lemma {:induction false} DayProgramsSound(channels: seq<TbcChannel>, day: Date, k: nat,
                                            fetch: (string, nat) -> (Response<seq<Node>>, Option<seq<Node>>), p: Program)
    requires InRange(day) && p in DayPrograms(channels, day, k, fetch)
    ensures Timed(p) && p.start.date == day
    ensures exists c :: c in channels && p.channelId == Some(IdOf(c))
  {
    var c := channels[0];
    if p in ChannelDay(c, day, k, fetch) {
      GetEpgsSound(fetch(IdOf(c), k).0, fetch(IdOf(c), k).1, day, IdOf(c), p);
    } else {
      DayProgramsSound(channels[1..], day, k, fetch, p);
      var c' :| c' in channels[1..] && p.channelId == Some(IdOf(c'));
      assert c' in channels;
    }
  }

  lemma {:induction false} CollectSound(channels: seq<TbcChannel>, days: seq<Date>, k: nat,
                                        fetch: (string, nat) -> (Response<seq<Node>>, Option<seq<Node>>), p: Program)
    requires forall i :: 0 <= i < |days| ==> InRange(days[i])
    requires p in Collect(channels, days, k, fetch)
    ensures exists i :: 0 <= i < |days| && p.start.date == days[i]
    ensures Timed(p) && exists c :: c in channels && p.channelId == Some(IdOf(c))
  {
    if p in DayPrograms(channels, days[0], k, fetch) {
      DayProgramsSound(channels, days[0], k, fetch, p);
    } else {
      CollectSound(channels, days[1..], k + 1, fetch, p);
      var i :| 0 <= i < |days[1..]| && p.start.date == days[1..][i];
      assert p.start.date == days[i + 1];
    }
  }

  /** With channels and a week inside year 9999, the programmes are the seven days'
      lists one after another, day `d` being `today + d` and requested as day `d`:
      the fetches run day by day, every channel within each day. */
  lemma GetTbcEpgInOrder(channels: seq<TbcChannel>, today: Date, fetch: (string, nat) -> (Response<seq<Node>>, Option<seq<Node>>))
    requires InRange(today)
    ensures |channels| > 0 && InRange(AddDays(today, Days - 1)) ==>
      && (forall d :: 0 <= d < Days ==> InRange(Span(today, Days)[d]) && Span(today, Days)[d] == AddDays(today, d))
      && GetTbcEpg(channels, today, fetch) == Ok((channels, Concat(DayLists(channels, Span(today, Days), 0, fetch))))
  {
    if |channels| > 0 && InRange(AddDays(today, Days - 1)) {
      SpanInRange(today, Days);
      CollectInOrder(channels, Span(today, Days), 0, fetch);
    }
  }

  /** Day `d`'s programmes are among the concatenated lists of `days` numbered from 0. */
  lemma DayListsComplete(channels: seq<TbcChannel>, days: seq<Date>, fetch: (string, nat) -> (Response<seq<Node>>, Option<seq<Node>>), d: nat, p: Program)
    requires forall i :: 0 <= i < |days| ==> InRange(days[i])
    requires d < |days|
    ensures p in DayOf(channels, fetch)(days[d], d) ==> p in Concat(DayLists(channels, days, 0, fetch))
  {
    NumberedComplete(DayOf(channels, fetch), days, 0, d, p);
  }

  /** With channels and a week inside year 9999, collection succeeds and keeps every
      programme of day `d`'s list. */
  lemma GetTbcEpgDay(channels: seq<TbcChannel>, today: Date, fetch: (string, nat) -> (Response<seq<Node>>, Option<seq<Node>>), d: nat, p: Program)
    requires InRange(today) && d < Days && |channels| > 0 && InRange(AddDays(today, Days - 1))
    ensures InRange(AddDays(today, d)) && GetTbcEpg(channels, today, fetch).Ok?
    ensures p in DayOf(channels, fetch)(AddDays(today, d), d) ==> p in GetTbcEpg(channels, today, fetch).value.1
  {
    GetTbcEpgInOrder(channels, today, fetch);
    DayListsComplete(channels, Span(today, Days), fetch, d, p);
  }

  /** Every channel has its page for every one of the seven days collected. */
  lemma GetTbcEpgComplete(channels: seq<TbcChannel>, today: Date, fetch: (string, nat) -> (Response<seq<Node>>, Option<seq<Node>>), d: nat, i: nat, p: Program)
    requires InRange(today) && d < Days && i < |channels|
    ensures GetTbcEpg(channels, today, fetch).Ok? ==>
      && InRange(AddDays(today, d))
      && (p in GetEpgs(fetch(IdOf(channels[i]), d).0, fetch(IdOf(channels[i]), d).1, AddDays(today, d), IdOf(channels[i]))
          ==> p in GetTbcEpg(channels, today, fetch).value.1)
  {
    assert Span(today, Days)[Days - 1] == AddDays(today, Days - 1);
    if |channels| > 0 && InRange(AddDays(today, Days - 1)) {
      GetTbcEpgDay(channels, today, fetch, d, p);
      DayOfApplied(channels, AddDays(today, d), d, fetch);
      DayProgramsComplete(channels, AddDays(today, d), d, fetch, i, p);
    }
  }

  lemma SpanSound(channels: seq<TbcChannel>, today: Date,
                  fetch: (string, nat) -> (Response<seq<Node>>, Option<seq<Node>>), p: Program)
    requires ValidDate(today) && forall i :: 0 <= i < Days ==> InRange(Span(today, Days)[i])
    requires p in Collect(channels, Span(today, Days), 0, fetch)
    ensures exists d: nat :: d < Days && p.start.date == AddDays(today, d)
    ensures Timed(p) && exists c :: c in channels && p.channelId == Some(IdOf(c))
  {
    var span := Span(today, Days);
    CollectSound(channels, span, 0, fetch, p);
    var i :| 0 <= i < |span| && p.start.date == span[i];
    assert p.start.date == AddDays(today, i);
  }

  /** Every programme collected starts on one of the seven days from `today` and
      carries the id of a listed channel; an empty channel list yields nothing, and a
      week reaching past year 9999 raises. */
  lemma GetTbcEpgSound(channels: seq<TbcChannel>, today: Date,
                       fetch: (string, nat) -> (Response<seq<Node>>, Option<seq<Node>>))
    requires InRange(today)
    ensures |channels| == 0 ==> GetTbcEpg(channels, today, fetch) == Ok(([], []))
    ensures GetTbcEpg(channels, today, fetch).Raised? <==> |channels| > 0 && !InRange(AddDays(today, Days - 1))
    ensures GetTbcEpg(channels, today, fetch).Ok? ==>
      var (cs, ps) := GetTbcEpg(channels, today, fetch).value;
      && cs == channels
      && AllTimed(ps)
      && forall p :: p in ps ==>
           && (exists d: nat :: d < Days && p.start.date == AddDays(today, d))
           && exists c :: c in channels && p.channelId == Some(IdOf(c))
  {
    var span := Span(today, Days);
    assert span[Days - 1] == AddDays(today, Days - 1);
    if |channels| > 0 && span[Days - 1].year <= 9999 {
      SpanInRange(today, Days);
      var ps := Collect(channels, span, 0, fetch);
      forall p | p in ps
        ensures exists d: nat :: d < Days && p.start.date == AddDays(today, d)
        ensures Timed(p) && exists c :: c in channels && p.channelId == Some(IdOf(c))
      {
        SpanSound(channels, today, fetch, p);
      }
      assert forall i :: 0 <= i < |ps| ==> ps[i] in ps;
    }
  }

  /** `get_channels_tbc`: the client's list when the page came back with status 200
      and the loop finished with at least one channel; otherwise the browser's list
      after whatever the client's loop built before an `<a>` without `href` stopped
      it. The browser gives nothing when it cannot be started or shows no item
      (`None` or no items), or when its own loop meets such an `<a>`. */
  function GetChannels(cloud: Response<seq<ChannelItem>>, browser: Option<seq<ChannelItem>>): seq<TbcChannel>
  {
    var first := if cloud.IsOk() then MapChannels(cloud.body, false) else ([], false);
    if cloud.IsOk() && !first.1 && |first.0| > 0 then first.0
    else
      match browser
      case None => []
      case Some(items) =>
        if |items| == 0 then []
        else
          var second := MapChannels(items, false);
          if second.1 then [] else first.0 + second.0
  }

  /** The client's list is used: status 200, and its loop finished with a channel. */
  predicate ClientSucceeds(cloud: Response<seq<ChannelItem>>)
  {
    cloud.IsOk() && FirstBreak(cloud.body) == |cloud.body| && |Named(cloud.body)| > 0
  }

  /** The browser's loop finishes over at least one item. */
  predicate BrowserSucceeds(browser: Option<seq<ChannelItem>>)
  {
    browser.Some? && |browser.value| > 0 && FirstBreak(browser.value) == |browser.value|
  }

  /** The channel list in terms of the items: the client's named items when its loop
      finishes with one. Otherwise, when the browser's loop finishes, the client's
      named items before its failing one (none when the status was not 200, all of
      them when its loop finished without a named item) followed by all the
      browser's named items; and nothing at all when the browser's loop does not
      finish either. Every record is well formed and carries no separate channel
      name. */
  lemma GetChannelsSpec(cloud: Response<seq<ChannelItem>>, browser: Option<seq<ChannelItem>>)
    ensures ClientSucceeds(cloud) ==> GetChannels(cloud, browser) == Records(Named(cloud.body), false)
    ensures cloud.IsOk() && !ClientSucceeds(cloud) && BrowserSucceeds(browser) ==>
      GetChannels(cloud, browser)
        == Records(Named(BeforeBreak(cloud.body)), false) + Records(Named(browser.value), false)
    ensures !cloud.IsOk() && BrowserSucceeds(browser) ==>
      GetChannels(cloud, browser) == Records(Named(browser.value), false)
    ensures !ClientSucceeds(cloud) && !BrowserSucceeds(browser) ==> GetChannels(cloud, browser) == []
    ensures forall c :: c in GetChannels(cloud, browser) ==> WellFormed(c) && c.channelName.None?
  {
    if cloud.IsOk() {
      ClientList(cloud.body);
    }
    if browser.Some? {
      ClientList(browser.value);
    }
  }

  lemma ClientList(items: seq<ChannelItem>)
    ensures MapChannels(items, false).0 == Records(Named(BeforeBreak(items)), false)
    ensures MapChannels(items, false).1 <==> FirstBreak(items) < |items|
    ensures FirstBreak(items) == |items| ==> BeforeBreak(items) == items
    ensures forall c :: c in MapChannels(items, false).0 ==> WellFormed(c) && c.channelName.None?
  {
    MapChannelsSpec(items, false);
    MapChannelsFails(items, false);
    MapChannelsWellFormed(items, false);
    BeforeBreakPrefix(items);
    UnlistedNames(Named(BeforeBreak(items)));
  }

  lemma {:induction false} UnlistedNames(items: seq<ChannelItem>)
    ensures forall c :: c in Records(items, false) ==> c.channelName.None?
  {
    if |items| > 0 {
      UnlistedNames(items[1..]);
    }
  }

  /** The attributes of the document's `tv` root. */
  const RootAttrs: seq<(string, string)> :=
    [("generator-info-name", "TBC_EPG_Scraper"), ("generator-info-url", "https://github.com/yourusername/tbc-epg")]

  /** The `channel` element of a channel: its first id, its name and, when it has a
      logo, an `icon`. */
  function ChannelElement(c: TbcChannel): Element
  {
    Element("channel", [("id", IdOf(c))], None,
      [Leaf("display-name", [], Some(c.name))]
      + (if c.logo != "" then [Leaf("icon", [("src", c.logo)], None)] else []))
  }

  /** The `programme` element of a programme of channel `id`: compact stamps, the
      title as it stands, and a `desc` only when there is a description. */
  function ProgrammeElement(p: Program, id: string): Element
    requires Timed(p)
  {
    Element("programme", [("start", CompactStamp(p.start)), ("stop", CompactStamp(p.end)), ("channel", id)], None,
      [Leaf("title", [], Some(p.title))]
      + (if p.description != "" then [Leaf("desc", [], Some(p.description))] else []))
  }

  /** The `programme` elements in collection order; a programme without a channel id
      raises `KeyError`. */
  function ProgrammeElements(ps: seq<Program>): Result<seq<Element>>
    requires AllTimed(ps)
  {
    if |ps| == 0 then Ok([])
    else
      assert forall i :: 0 <= i < |ps| - 1 ==> ps[1..][i] == ps[i + 1];
      match ps[0].channelId
      case None => Raised("KeyError")
      case Some(id) =>
        match ProgrammeElements(ps[1..])
        case Raised(e) => Raised(e)
        case Ok(rest) => Ok([ProgrammeElement(ps[0], id)] + rest)
  }

  /** `generate_xmltv`: every channel's element, then every programme's. */
  function GenerateXmltv(cs: seq<TbcChannel>, ps: seq<Program>): Result<Element>
    requires AllTimed(ps)
  {
    match ProgrammeElements(ps)
    case Raised(e) => Raised(e)
    case Ok(es) => Ok(Element("tv", RootAttrs, None, seq(|cs|, i requires 0 <= i < |cs| => ChannelElement(cs[i])) + es))
  }

  /** How a guide reader sees a programme this writer emits. */
  function ListingOf(p: Program): Listing
  {
    Listing(OrEmpty(p.channelId), p.start, p.end, Some(p.title), if p.description != "" then Some(p.description) else None)
  }

  /** The elements are written exactly when every programme has a channel id, one
      element per programme, in order. */
  lemma ProgrammeElementsSpec(ps: seq<Program>)
    requires AllTimed(ps)
    ensures ProgrammeElements(ps).Raised? <==> exists i :: 0 <= i < |ps| && ps[i].channelId.None?
    ensures ProgrammeElements(ps).Ok? ==>
      && |ProgrammeElements(ps).value| == |ps|
      && forall i :: 0 <= i < |ps| ==>
           (ps[i].channelId.Some? && ProgrammeElements(ps).value[i] == ProgrammeElement(ps[i], ps[i].channelId.value))
  {
    ProgrammeElementsRaised(ps);
    if ProgrammeElements(ps).Ok? {
      forall i | 0 <= i < |ps|
        ensures ps[i].channelId.Some? && |ProgrammeElements(ps).value| == |ps|
        ensures ProgrammeElements(ps).value[i] == ProgrammeElement(ps[i], ps[i].channelId.value)
      {
        ProgrammeElementAt(ps, i);
      }
    }
  }

  /** Writing raises exactly when some programme has no channel id. */
  lemma {:induction false} ProgrammeElementsRaised(ps: seq<Program>)
    requires AllTimed(ps)
    ensures ProgrammeElements(ps).Raised? <==> exists i :: 0 <= i < |ps| && ps[i].channelId.None?
  {
    if |ps| > 0 {
      assert forall i :: 0 <= i < |ps| - 1 ==> ps[1..][i] == ps[i + 1];
      ProgrammeElementsRaised(ps[1..]);
      if ps[0].channelId.Some? && exists i :: 0 <= i < |ps| && ps[i].channelId.None? {
        var i :| 0 <= i < |ps| && ps[i].channelId.None?;
        assert ps[1..][i - 1].channelId.None?;
      }
    }
  }

  /** The `i`th element written is the `i`th programme's. */
  lemma {:induction false} ProgrammeElementAt(ps: seq<Program>, i: nat)
    requires AllTimed(ps) && i < |ps| && ProgrammeElements(ps).Ok?
    ensures |ProgrammeElements(ps).value| == |ps|
    ensures ps[i].channelId.Some? && ProgrammeElements(ps).value[i] == ProgrammeElement(ps[i], ps[i].channelId.value)
  {
    assert forall j :: 0 <= j < |ps| - 1 ==> ps[1..][j] == ps[j + 1];
    var rest := ProgrammeElements(ps[1..]);
    assert rest.Ok?;
    assert ProgrammeElements(ps).value == [ProgrammeElement(ps[0], ps[0].channelId.value)] + rest.value;
    if i > 0 {
      ProgrammeElementAt(ps[1..], i - 1);
    } else if |ps| > 1 {
      ProgrammeElementAt(ps[1..], 0);
    }
  }

  lemma ReadProgrammeElement(p: Program, id: string)
    requires Timed(p)
    ensures ReadProgramme(ProgrammeElement(p, id)) == Some(Listing(id, p.start, p.end, Some(p.title),
                                                           if p.description != "" then Some(p.description) else None))
    ensures ReadChannel(ProgrammeElement(p, id)) == None
  {
    ProgrammeAttrs(CompactStamp(p.start), CompactStamp(p.end), id);
    ProgrammeChildren(p.title, p.description);
    ReadStampRoundTrip(p.start);
    ReadStampRoundTrip(p.end);
  }

  lemma ProgrammeAttrs(a: string, b: string, id: string)
    ensures var attrs := [("start", a), ("stop", b), ("channel", id)];
      Attr(attrs, "start") == Some(a) && Attr(attrs, "stop") == Some(b) && Attr(attrs, "channel") == Some(id)
  {
    var attrs := [("start", a), ("stop", b), ("channel", id)];
    var tail := [("stop", b), ("channel", id)];
    var last := [("channel", id)];
    assert attrs[1..] == tail && tail[1..] == last;
    assert Attr(last, "channel") == Some(id);
    assert Attr(tail, "channel") == Attr(last, "channel");
    assert Attr(attrs, "channel") == Attr(tail, "channel");
  }

  lemma ProgrammeChildren(title: string, desc: string)
    ensures var children := [Leaf("title", [], Some(title))] + (if desc != "" then [Leaf("desc", [], Some(desc))] else []);
      && TextOf(Find(children, "title")) == Some(title)
      && TextOf(Find(children, "desc")) == (if desc != "" then Some(desc) else None)
  {
    var children := [Leaf("title", [], Some(title))] + (if desc != "" then [Leaf("desc", [], Some(desc))] else []);
    if desc != "" {
      assert children[1..] == [Leaf("desc", [], Some(desc))];
    } else {
      assert children[1..] == [];
    }
  }

  lemma ReadChannelElement(c: TbcChannel)
    ensures ReadChannel(ChannelElement(c)) == Some(EntryOf(c))
    ensures ReadProgramme(ChannelElement(c)) == None
  {
    var e := ChannelElement(c);
    var name := Leaf("display-name", [], Some(c.name));
    assert e.children[0] == name;
    assert Find(e.children, "display-name") == Some(name);
    if c.logo != "" {
      var icon := Leaf("icon", [("src", c.logo)], None);
      assert e.children[1..] == [icon];
      assert Find(e.children[1..], "icon") == Some(icon);
      assert Find(e.children, "icon") == Some(icon);
      assert AttrOf(Some(icon), "src") == Some(c.logo);
    } else {
      assert e.children[1..] == [];
      assert Find(e.children, "icon") == None;
    }
  }

  /** The guide read back: it is written exactly when every programme has a channel
      id; then its channels are the channels given and its programmes the programmes
      given, in order, times printed and read back unchanged. */
  lemma GenerateXmltvSpec(cs: seq<TbcChannel>, ps: seq<Program>)
    requires AllTimed(ps)
    ensures GenerateXmltv(cs, ps).Raised? <==> exists i :: 0 <= i < |ps| && ps[i].channelId.None?
    ensures GenerateXmltv(cs, ps).Ok? ==>
      && Channels(GenerateXmltv(cs, ps).value) == Entries(cs)
      && |Listings(GenerateXmltv(cs, ps).value)| == |ps|
      && forall i :: 0 <= i < |ps| ==> Listings(GenerateXmltv(cs, ps).value)[i] == ListingOf(ps[i])
  {
    ProgrammeElementsSpec(ps);
    if ProgrammeElements(ps).Ok? {
      var es := ProgrammeElements(ps).value;
      var chans := seq(|cs|, i requires 0 <= i < |cs| => ChannelElement(cs[i]));
      ChannelsRead(cs, chans);
      ProgrammesRead(ps, es);
      FilterMapAppend(chans, es, ReadProgramme);
      FilterMapAppend(chans, es, ReadChannel);
    }
  }

  lemma ChannelsRead(cs: seq<TbcChannel>, chans: seq<Element>)
    requires chans == seq(|cs|, i requires 0 <= i < |cs| => ChannelElement(cs[i]))
    ensures FilterMap(chans, ReadProgramme) == []
    ensures FilterMap(chans, ReadChannel) == Entries(cs)
  {
    forall i | 0 <= i < |chans|
      ensures ReadProgramme(chans[i]).None? && ReadChannel(chans[i]) == Some(EntryOf(cs[i]))
    {
      ReadChannelElement(cs[i]);
    }
    FilterMapNone(chans, ReadProgramme);
    FilterMapTotal(chans, ReadChannel);
  }

  lemma ProgrammesRead(ps: seq<Program>, es: seq<Element>)
    requires AllTimed(ps) && |es| == |ps|
    requires forall i :: 0 <= i < |ps| ==> ps[i].channelId.Some? && es[i] == ProgrammeElement(ps[i], ps[i].channelId.value)
    ensures FilterMap(es, ReadChannel) == []
    ensures |FilterMap(es, ReadProgramme)| == |ps|
    ensures forall i :: 0 <= i < |ps| ==> FilterMap(es, ReadProgramme)[i] == ListingOf(ps[i])
  {
    forall i | 0 <= i < |es|
      ensures ReadChannel(es[i]).None? && ReadProgramme(es[i]) == Some(ListingOf(ps[i]))
    {
      ReadProgrammeElement(ps[i], ps[i].channelId.value);
    }
    FilterMapNone(es, ReadChannel);
    FilterMapTotal(es, ReadProgramme);
  }

  /** What `main` writes: the guide of what `get_tbc_epg` returned; nothing when that
      raised or the writer raised. */
  function MainDocument(r: Result<(seq<TbcChannel>, seq<Program>)>): Option<Element>
    requires r.Ok? ==> AllTimed(r.value.1)
  {
    match r
    case Raised(_) => None
    case Ok((cs, ps)) =>
      match GenerateXmltv(cs, ps)
      case Raised(_) => None
      case Ok(doc) => Some(doc)
  }

  /** The run as a whole: a guide is written unless the week overflows; it lists the
      channels, and every programme in it belongs to one of them and starts within
      the seven days. */
  lemma MainSound(channels: seq<TbcChannel>, today: Date,
                  fetch: (string, nat) -> (Response<seq<Node>>, Option<seq<Node>>), l: Listing)
    requires InRange(today)
    ensures var r := GetTbcEpg(channels, today, fetch);
      && (r.Ok? ==> AllTimed(r.value.1))
      && (MainDocument(r).None? <==> |channels| > 0 && !InRange(AddDays(today, Days - 1)))
      && (MainDocument(r).Some? ==> Channels(MainDocument(r).value) == Entries(channels))
      && (MainDocument(r).Some? && l in Listings(MainDocument(r).value) ==>
            && (exists i :: 0 <= i < |channels| && l.channel == IdOf(channels[i]))
            && exists d: nat :: d < Days && l.start.date == AddDays(today, d))
  {
    var r := GetTbcEpg(channels, today, fetch);
    GetTbcEpgSound(channels, today, fetch);
    if r.Ok? {
      var (cs, ps) := r.value;
      assert cs == channels || (cs == [] && channels == []);
      MainListing(channels, ps, today, l);
    }
  }

  lemma MainListing(channels: seq<TbcChannel>, ps: seq<Program>, today: Date, l: Listing)
    requires ValidDate(today) && AllTimed(ps)
    requires forall p :: p in ps ==>
      && (exists d: nat :: d < Days && p.start.date == AddDays(today, d))
      && exists c :: c in channels && p.channelId == Some(IdOf(c))
    ensures GenerateXmltv(channels, ps).Ok? && Channels(GenerateXmltv(channels, ps).value) == Entries(channels)
    ensures l in Listings(GenerateXmltv(channels, ps).value) ==>
      && (exists i :: 0 <= i < |channels| && l.channel == IdOf(channels[i]))
      && exists d: nat :: d < Days && l.start.date == AddDays(today, d)
  {
    GenerateXmltvSpec(channels, ps);
    forall i | 0 <= i < |ps|
      ensures ps[i].channelId.Some?
    {
      assert ps[i] in ps;
    }
    var doc := GenerateXmltv(channels, ps).value;
    if l in Listings(doc) {
      var j :| 0 <= j < |Listings(doc)| && Listings(doc)[j] == l;
      assert ps[j] in ps;
      var c :| c in channels && ps[j].channelId == Some(IdOf(c));
      var i :| 0 <= i < |channels| && channels[i] == c;
    }
  }
}
