/** What the two TBC scrapers read from `www.tbc.net.tw/EPG` pages, and the parsing
    steps they share: the `HH:MM~HH:MM` search, the `<p>` text, the channel list. */
module TbcPage {
  import opened Outcome
  import opened Text
  import opened Civil
  import opened TimeFormat
  import opened Xmltv

  /** A `<li>` of a `ul.list_program2` programme list: the attributes the scrapers
      read (`None` when absent) and the text pieces of its first `<p>` (`None` when
      it has no `<p>`). */
  datatype ScheduleItem = ScheduleItem(
    date: Option<string>,
    time: Option<string>,
    title: Option<string>,
    dataName: Option<string>,
    desc: Option<string>,
    channelName: Option<string>,
    para: Option<seq<string>>)

  /** BeautifulSoup's `p.get_text(strip=True)`: every text piece stripped, the empty
      ones dropped, the rest joined with no separator. */
  function StrippedText(pieces: seq<string>): (r: string)
    ensures |r| == 0 || (!IsSpace(r[0]) && !IsSpace(r[|r| - 1]))
  {
    if |pieces| == 0 then ""
    else
      var head := Strip(pieces[0]);
      var rest := StrippedText(pieces[1..]);
      StripSpec(pieces[0]);
      assert |head + rest| > 0 ==> (head + rest)[0] == if |head| > 0 then head[0] else rest[0];
      assert |head + rest| > 0 ==> (head + rest)[|head + rest| - 1] == if |rest| > 0 then rest[|rest| - 1] else head[|head| - 1];
      head + rest
  }

  /** The pieces joined with no separator. */
  function Joined(pieces: seq<string>): string
  {
    if |pieces| == 0 then "" else pieces[0] + Joined(pieces[1..])
  }

  /** BeautifulSoup's `p.text.strip()`: the pieces joined, then stripped once. */
  function WholeText(pieces: seq<string>): string
  {
    Strip(Joined(pieces))
  }

  /** The two texts agree whenever no piece carries whitespace at its ends. */
  lemma {:induction false} StrippedTextOfTrimmed(pieces: seq<string>)
    requires forall i :: 0 <= i < |pieces| ==> Strip(pieces[i]) == pieces[i]
    ensures StrippedText(pieces) == Joined(pieces)
  {
    if |pieces| > 0 {
      StrippedTextOfTrimmed(pieces[1..]);
      assert Strip(pieces[0]) == pieces[0];
    }
  }

  /** The number of ASCII digits in `s` from index `i` on. */
  function DigitRun(s: string, i: nat): (n: nat)
    requires i <= |s|
    ensures i + n <= |s|
    decreases |s| - i
  {
    if i == |s| || !IsDigit(s[i]) then 0 else 1 + DigitRun(s, i + 1)
  }

  /** The run holds digits only. */
  lemma {:induction false} DigitRunDigits(s: string, i: nat)
    requires i <= |s|
    ensures AllDigits(s[i..i + DigitRun(s, i)])
    decreases |s| - i
  {
    if i < |s| && IsDigit(s[i]) {
      DigitRunDigits(s, i + 1);
      var rest := s[i + 1..i + 1 + DigitRun(s, i + 1)];
      var run := s[i..i + DigitRun(s, i)];
      forall j | 0 <= j < |run|
        ensures IsDigit(run[j])
      {
        if j > 0 {
          assert run[j] == rest[j - 1];
        }
      }
    }
  }

  /** The four digit groups of a match of `(\d+:\d+)~(\d+:\d+)`. */
  datatype TimeRange = TimeRange(startHour: string, startMinute: string, endHour: string, endMinute: string)
  {
    /** The text the pattern matched. */
    function Text(): string
    {
      startHour + ":" + startMinute + "~" + endHour + ":" + endMinute
    }

    predicate Digits()
    {
      && |startHour| > 0 && AllDigits(startHour) && |startMinute| > 0 && AllDigits(startMinute)
      && |endHour| > 0 && AllDigits(endHour) && |endMinute| > 0 && AllDigits(endMinute)
    }
  }

  /** The length of the run of digits at `i` when it is non-empty and followed by
      `sep`. */
  function RunBefore(s: string, i: nat, sep: char): (r: Option<nat>)
    requires i <= |s|
    ensures r.Some? ==> 0 < r.value == DigitRun(s, i) && i + r.value < |s| && s[i + r.value] == sep
    ensures r.None? ==> DigitRun(s, i) == 0 || i + DigitRun(s, i) == |s| || s[i + DigitRun(s, i)] != sep
  {
    var a := DigitRun(s, i);
    if a == 0 || i + a == |s| || s[i + a] != sep then None else Some(a)
  }

  /** The lengths of the four digit runs of `(\d+:\d+)~(\d+:\d+)` read from index
      `i` of `s`: each `\d+` takes its whole run of digits, since giving a digit back
      would leave a digit where `:` or `~` must follow, and the last one is greedy. */
  function RunLengths(s: string, i: nat): (r: Option<(nat, nat, nat, nat)>)
    requires i <= |s|
    ensures r.Some? ==> var (a, b, c, d) := r.value;
      && 0 < a == DigitRun(s, i) && i + a < |s| && s[i + a] == ':'
      && 0 < b == DigitRun(s, i + a + 1) && i + a + 1 + b < |s| && s[i + a + 1 + b] == '~'
      && 0 < c == DigitRun(s, i + a + b + 2) && i + a + b + 2 + c < |s| && s[i + a + b + 2 + c] == ':'
      && 0 < d == DigitRun(s, i + a + b + c + 3)
  {
    var a := DigitRun(s, i);
    if a == 0 || i + a == |s| || s[i + a] != ':' then None
    else
      var b := DigitRun(s, i + a + 1);
      if b == 0 || i + a + 1 + b == |s| || s[i + a + 1 + b] != '~' then None
      else
        var c := DigitRun(s, i + a + b + 2);
        if c == 0 || i + a + b + 2 + c == |s| || s[i + a + b + 2 + c] != ':' then None
        else
          var d := DigitRun(s, i + a + b + c + 3);
          if d == 0 then None else Some((a, b, c, d))
  }

  /** The match at `i`, if any. */
  function RangeAt(s: string, i: nat): Option<TimeRange>
    requires i <= |s|
  {
    match RunLengths(s, i)
    case None => None
    case Some((a, b, c, d)) => Some(Groups(s, i, a, b, c, d))
  }

  /** The four groups cut from `s` at `i`, with runs of lengths `a`, `b`, `c` and `d`
      and one separator between consecutive runs. */
  function Groups(s: string, i: nat, a: nat, b: nat, c: nat, d: nat): TimeRange
    requires i + a + b + c + d + 3 <= |s|
  {
    var j := i + a + 1;
    var k := j + b + 1;
    var l := k + c + 1;
    TimeRange(s[i..i + a], s[j..j + b], s[k..k + c], s[l..l + d])
  }

  /** Text of the pattern's shape occurs at `i`: four non-empty digit groups with
      `:`, `~` and `:` between them (`TextAt` shows this is `r.Text()` occurring). */
  ghost predicate ShapeAt(s: string, i: nat, r: TimeRange)
  {
    r.Digits() && PiecesAt(s, i, r)
  }

  lemma SliceCat(s: string, x: nat, y: nat, z: nat)
    requires x <= y <= z <= |s|
    ensures s[x..z] == s[x..y] + s[y..z]
  {
  }

  lemma SliceOfCat(s: string, x: nat, u: string, v: string)
    requires x + |u + v| <= |s| && s[x..x + |u + v|] == u + v
    ensures s[x..x + |u|] == u && s[x + |u|..x + |u| + |v|] == v
  {
    assert s[x..x + |u|] == s[x..x + |u + v|][..|u|];
    assert s[x + |u|..x + |u| + |v|] == s[x..x + |u + v|][|u|..];
  }

  /** The seven pieces of the pattern's text, one after the other from `i`. */
  ghost predicate PiecesAt(s: string, i: nat, r: TimeRange)
  {
    var j := i + |r.startHour| + 1;
    var k := j + |r.startMinute| + 1;
    var l := k + |r.endHour| + 1;
    && l + |r.endMinute| <= |s|
    && s[i..j - 1] == r.startHour && s[j - 1] == ':'
    && s[j..k - 1] == r.startMinute && s[k - 1] == '~'
    && s[k..l - 1] == r.endHour && s[l - 1] == ':'
    && s[l..l + |r.endMinute|] == r.endMinute
  }

  lemma SliceOfCatChar(s: string, x: nat, u: string, c: char)
    requires x + |u| + 1 <= |s| && s[x..x + |u| + 1] == u + [c]
    ensures s[x..x + |u|] == u && s[x + |u|] == c
  {
    assert s[x..x + |u|] == s[x..x + |u| + 1][..|u|];
    assert s[x + |u|] == s[x..x + |u| + 1][|u|];
  }

  lemma TextPieces(s: string, i: nat, r: TimeRange)
    requires OccursAt(s, r.Text(), i)
    ensures PiecesAt(s, i, r)
  {
    var h, m, eh, em := r.startHour, r.startMinute, r.endHour, r.endMinute;
    var t1 := h + ":";
    var t2 := t1 + m;
    var t3 := t2 + "~";
    var t4 := t3 + eh;
    var t5 := t4 + ":";
    SliceOfCat(s, i, t5, em);
    SliceOfCatChar(s, i, t4, ':');
    SliceOfCat(s, i, t3, eh);
    SliceOfCatChar(s, i, t2, '~');
    SliceOfCat(s, i, t1, m);
    SliceOfCatChar(s, i, h, ':');
  }

  lemma PiecesText(s: string, i: nat, r: TimeRange)
    requires PiecesAt(s, i, r)
    ensures OccursAt(s, r.Text(), i)
  {
    var j := i + |r.startHour| + 1;
    var k := j + |r.startMinute| + 1;
    var l := k + |r.endHour| + 1;
    var e := l + |r.endMinute|;
    var t1 := r.startHour + ":";
    var t2 := t1 + r.startMinute;
    var t3 := t2 + "~";
    var t4 := t3 + r.endHour;
    var t5 := t4 + ":";
    AppendChar(s, i, j - 1, r.startHour, ':');
    AppendPiece(s, i, j, k - 1, t1, r.startMinute);
    AppendChar(s, i, k - 1, t2, '~');
    AppendPiece(s, i, k, l - 1, t3, r.endHour);
    AppendChar(s, i, l - 1, t4, ':');
    AppendPiece(s, i, l, e, t5, r.endMinute);
  }

  lemma AppendPiece(s: string, x: nat, y: nat, z: nat, u: string, v: string)
    requires x <= y <= z <= |s| && s[x..y] == u && s[y..z] == v
    ensures s[x..z] == u + v
  {
  }

  lemma AppendChar(s: string, x: nat, y: nat, u: string, c: char)
    requires x <= y < |s| && s[x..y] == u && s[y] == c
    ensures s[x..y + 1] == u + [c]
  {
  }

  /** The pattern's text occurs at `i` exactly when its seven pieces occur one after
      the other from `i`. */
  lemma TextAt(s: string, i: nat, r: TimeRange)
    ensures OccursAt(s, r.Text(), i) <==> PiecesAt(s, i, r)
  {
    if OccursAt(s, r.Text(), i) {
      TextPieces(s, i, r);
    }
    if PiecesAt(s, i, r) {
      PiecesText(s, i, r);
    }
  }

  lemma GroupsDigits(s: string, i: nat, a: nat, b: nat, c: nat, d: nat)
    requires i + a + b + c + d + 3 <= |s| && 0 < a && 0 < b && 0 < c && 0 < d
    requires AllDigits(s[i..i + a]) && AllDigits(s[i + a + 1..i + a + 1 + b])
    requires AllDigits(s[i + a + b + 2..i + a + b + 2 + c]) && AllDigits(s[i + a + b + c + 3..i + a + b + c + 3 + d])
    ensures Groups(s, i, a, b, c, d).Digits()
  {
  }

  lemma GroupsPieces(s: string, i: nat, a: nat, b: nat, c: nat, d: nat)
    requires i + a + b + c + d + 3 <= |s|
    requires s[i + a] == ':' && s[i + a + 1 + b] == '~' && s[i + a + b + 2 + c] == ':'
    ensures PiecesAt(s, i, Groups(s, i, a, b, c, d))
  {
  }

  lemma RangeAtDigits(s: string, i: nat)
    requires i <= |s|
    ensures RangeAt(s, i).Some? ==> RangeAt(s, i).value.Digits()
  {
    if RunLengths(s, i).Some? {
      var (a, b, c, d) := RunLengths(s, i).value;
      DigitRunDigits(s, i);
      DigitRunDigits(s, i + a + 1);
      DigitRunDigits(s, i + a + b + 2);
      DigitRunDigits(s, i + a + b + c + 3);
      GroupsDigits(s, i, a, b, c, d);
    }
  }

  lemma RangeAtPieces(s: string, i: nat)
    requires i <= |s|
    ensures RangeAt(s, i).Some? ==> PiecesAt(s, i, RangeAt(s, i).value)
  {
    if RunLengths(s, i).Some? {
      var (a, b, c, d) := RunLengths(s, i).value;
      GroupsPieces(s, i, a, b, c, d);
    }
  }

  /** What `RangeAt` finds is a match of the pattern at `i`. */
  lemma RangeAtSound(s: string, i: nat)
    requires i <= |s|
    ensures RangeAt(s, i).Some? ==> ShapeAt(s, i, RangeAt(s, i).value)
    ensures RangeAt(s, i).Some? ==> OccursAt(s, RangeAt(s, i).value.Text(), i)
  {
    RangeAtDigits(s, i);
    RangeAtPieces(s, i);
    if RangeAt(s, i).Some? {
      TextAt(s, i, RangeAt(s, i).value);
    }
  }

  /** A run of digits that occurs at `i` and is followed by a non-digit is the run
      `DigitRun` counts. */
  lemma {:induction false} RunOf(s: string, i: nat, g: string)
    requires i + |g| < |s| && s[i..i + |g|] == g && AllDigits(g) && !IsDigit(s[i + |g|])
    ensures DigitRun(s, i) == |g|
    decreases |g|
  {
    if |g| > 0 {
      assert s[i] == g[0];
      assert s[i + 1..i + 1 + |g[1..]|] == g[1..];
      RunOf(s, i + 1, g[1..]);
    }
  }

  /** A run of digits that occurs at `i` is at most as long as the run there. */
  lemma {:induction false} RunAtLeast(s: string, i: nat, g: string)
    requires i + |g| <= |s| && s[i..i + |g|] == g && AllDigits(g)
    ensures DigitRun(s, i) >= |g|
    decreases |g|
  {
    if |g| > 0 {
      assert s[i] == g[0];
      assert s[i + 1..i + 1 + |g[1..]|] == g[1..];
      RunAtLeast(s, i + 1, g[1..]);
    }
  }

  /** The runs the pattern needs, found at their places, are what `RunLengths` reads. */
  lemma RunLengthsOf(s: string, i: nat, a: nat, b: nat, c: nat)
    requires i + a + b + c + 3 <= |s|
    requires 0 < a == DigitRun(s, i) && s[i + a] == ':'
    requires 0 < b == DigitRun(s, i + a + 1) && s[i + a + 1 + b] == '~'
    requires 0 < c == DigitRun(s, i + a + b + 2) && s[i + a + b + 2 + c] == ':'
    requires DigitRun(s, i + a + b + c + 3) > 0
    ensures RunLengths(s, i) == Some((a, b, c, DigitRun(s, i + a + b + c + 3)))
  {
  }

  /** Whenever the pattern can match at `i`, `RangeAt` finds the match the regular
      expression engine picks: the same first three groups and the longest last one. */
  lemma RangeAtComplete(s: string, i: nat, r: TimeRange)
    requires i <= |s| && ShapeAt(s, i, r)
    ensures RangeAt(s, i).Some?
    ensures var m := RangeAt(s, i).value;
      && m.startHour == r.startHour && m.startMinute == r.startMinute && m.endHour == r.endHour
      && |m.endMinute| >= |r.endMinute|
  {
    var a, b, c := |r.startHour|, |r.startMinute|, |r.endHour|;
    var j := i + a + 1;
    var k := j + b + 1;
    var l := k + c + 1;
    RunOf(s, i, r.startHour);
    RunOf(s, j, r.startMinute);
    RunOf(s, k, r.endHour);
    RunAtLeast(s, l, r.endMinute);
    RunLengthsOf(s, i, a, b, c);
  }

  /** The first index from `i` on where the pattern matches, or `|s| + 1` when it
      matches nowhere: `re.search` tries the start positions in order. */
  function MatchIndex(s: string, i: nat): (j: nat)
    requires i <= |s|
    ensures i <= j <= |s| + 1
    ensures forall k :: i <= k < j && k <= |s| ==> RangeAt(s, k).None?
    ensures j <= |s| ==> RangeAt(s, j).Some?
    decreases |s| - i
  {
    if RangeAt(s, i).Some? then i
    else if i == |s| then |s| + 1
    else MatchIndex(s, i + 1)
  }

  /** Python's `re.search(r"(\d+:\d+)~(\d+:\d+)", s)`. */
  function SearchRange(s: string): Option<TimeRange>
  {
    var j := MatchIndex(s, 0);
    if j <= |s| then RangeAt(s, j) else None
  }

  /** There is no match exactly when no index of the text holds the pattern. */
  lemma SearchRangeNone(s: string)
    ensures SearchRange(s).None? <==> forall i, r :: 0 <= i <= |s| ==> !ShapeAt(s, i, r)
  {
    var j := MatchIndex(s, 0);
    if j <= |s| {
      RangeAtSound(s, j);
    } else {
      forall i, r | 0 <= i <= |s|
        ensures !ShapeAt(s, i, r)
      {
        if ShapeAt(s, i, r) {
          RangeAtComplete(s, i, r);
        }
      }
    }
  }

  /** A match is found at the leftmost index that holds the pattern, and it is of the
      pattern's shape. */
  lemma SearchRangeLeftmost(s: string)
    ensures SearchRange(s).Some? ==>
      exists j :: 0 <= j <= |s| && ShapeAt(s, j, SearchRange(s).value)
                  && forall i, r :: 0 <= i < j ==> !ShapeAt(s, i, r)
  {
    var j := MatchIndex(s, 0);
    if j <= |s| {
      RangeAtSound(s, j);
      forall i, r | 0 <= i < j
        ensures !ShapeAt(s, i, r)
      {
        if ShapeAt(s, i, r) {
          RangeAtComplete(s, i, r);
        }
      }
    }
  }

  /** A text that is exactly one pattern match is found whole. */
  lemma SearchRangeOfText(r: TimeRange)
    requires r.Digits()
    ensures SearchRange(r.Text()) == Some(r)
  {
    var s := r.Text();
    assert s[0..|s|] == s;
    TextPieces(s, 0, r);
    RangeAtComplete(s, 0, r);
    RangeAtPieces(s, 0);
    var m := RangeAt(s, 0).value;
    assert m.endMinute == r.endMinute;
    assert MatchIndex(s, 0) == 0;
  }

  /** The groups of a match are digit strings. */
  lemma SearchRangeDigits(s: string)
    ensures SearchRange(s).Some? ==> SearchRange(s).value.Digits()
  {
    if MatchIndex(s, 0) <= |s| {
      RangeAtDigits(s, MatchIndex(s, 0));
    }
  }

  /** The strings `str(n)` for `lo <= n < hi`, in order: Python's
      `[str(i) for i in range(lo, hi)]`. */
  function Decimals(lo: nat, hi: nat): (r: seq<string>)
    requires lo <= hi
  {
    seq(hi - lo, i requires 0 <= i => Decimal(lo + i))
  }

  /** `tbc.py` never fetches the channels numbered 300 to 329. */
  const SkipIds: seq<string> := Decimals(300, 330)

  /** `tbc.py` titles the channels numbered 404 to 420 by their `data-name`. */
  const SpecialIds: seq<string> := Decimals(404, 421)

  /** A three-digit decimal string reads back as the number it prints. */
  lemma DecimalOfThreeDigits(id: string)
    requires |id| == 3 && AllDigits(id) && id[0] != '0'
    ensures 100 <= Value(id) < 1000 && Decimal(Value(id)) == id
  {
    var d0, d1, d2 := DigitValue(id[0]), DigitValue(id[1]), DigitValue(id[2]);
    assert id[..2][..1] == id[..1] && id[..1][..0] == [];
    assert Value(id[..1]) == d0;
    assert Value(id[..2]) == d0 * 10 + d1;
    var n := Value(id);
    assert n == d0 * 100 + d1 * 10 + d2;
    assert d0 != 0;
    DecimalThreeDigits(n);
    assert n / 100 == d0;
    assert n / 10 == d0 * 10 + d1;
    assert n / 10 % 10 == d1;
    assert n % 10 == d2;
  }

  /** A three-digit number prints without a leading zero. */
  lemma DecimalShape(n: nat)
    requires 100 <= n < 1000
    ensures |Decimal(n)| == 3 && Decimal(n)[0] != '0'
  {
    DecimalThreeDigits(n);
    var d := n / 100;
    assert 1 <= d < 10;
    assert Decimal(n)[0] == DigitChar(d);
  }

  /** Membership in a range of three-digit ids, `lo <= n < hi`, is a test on the text:
      three digits without a leading zero whose value lies in the range. */
  lemma InDecimals(id: string, lo: nat, hi: nat)
    requires 100 <= lo <= hi <= 1000
    ensures id in Decimals(lo, hi) <==>
      |id| == 3 && AllDigits(id) && id[0] != '0' && lo <= Value(id) < hi
  {
    if id in Decimals(lo, hi) {
      var i :| 0 <= i < hi - lo && Decimals(lo, hi)[i] == id;
      DecimalsEntry(lo, hi, i);
    }
    if |id| == 3 && AllDigits(id) && id[0] != '0' && lo <= Value(id) < hi {
      DecimalsComplete(id, lo, hi);
    }
  }

  lemma DecimalsEntry(lo: nat, hi: nat, i: nat)
    requires 100 <= lo <= hi <= 1000 && i < hi - lo
    ensures var id := Decimals(lo, hi)[i];
      |id| == 3 && AllDigits(id) && id[0] != '0' && Value(id) == lo + i
  {
    DecimalShape(lo + i);
  }

  lemma DecimalsComplete(id: string, lo: nat, hi: nat)
    requires 100 <= lo <= hi <= 1000
    requires |id| == 3 && AllDigits(id) && id[0] != '0' && lo <= Value(id) < hi
    ensures id in Decimals(lo, hi)
  {
    DecimalOfThreeDigits(id);
    assert Decimals(lo, hi)[Value(id) - lo] == id;
  }

  /** A `<li>` of the `ul.list_tv` channel list: its `title` and `id` attributes, its
      `<img>` (absent, without `src`, or with one) and its `<a>` (absent, without
      `href`, or with one). */
  datatype ChannelItem = ChannelItem(
    title: Option<string>,
    id: Option<string>,
    img: Option<Option<string>>,
    link: Option<Option<string>>)

  /** A channel record as the TBC scrapers build it. `tbc.py` also stores the name
      under `channelName`; `tbc_epg.py` does not. */
  datatype TbcChannel = TbcChannel(
    name: string,
    channelName: Option<string>,
    ids: seq<string>,
    url: string,
    source: string,
    logo: string,
    desc: string,
    sort: string)

  /** The one id, `channel["id"][0]`. */
  function IdOf(c: TbcChannel): string
  {
    if |c.ids| > 0 then c.ids[0] else ""
  }

  /** The stripped `title`, which decides whether the item is a channel. */
  function NameOf(li: ChannelItem): string
  {
    Strip(OrEmpty(li.title))
  }

  /** A named item whose `<a>` has no `href`: `li.find("a")["href"]` raises `KeyError`. */
  predicate Breaks(li: ChannelItem)
  {
    NameOf(li) != "" && li.link == Some(None)
  }

  /** The record built from a named item. */
  function ChannelOf(li: ChannelItem, listed: bool): (c: TbcChannel)
  {
    var name := NameOf(li);
    TbcChannel(
      name,
      if listed then Some(name) else None,
      [OrEmpty(li.id)],
      match li.link
        case Some(Some(h)) => h
        case _ => "",
      "tbc",
      match li.img
        case Some(Some(src)) => src
        case _ => "",
      "",
      "海外")
  }

  /** The channel-list loop: items with an empty stripped title are skipped, and the
      first named item whose link lacks `href` ends the loop with the records built so
      far (`failed`). `listed` selects the `tbc.py` record shape. */
  function MapChannels(items: seq<ChannelItem>, listed: bool): (seq<TbcChannel>, bool)
  {
    if |items| == 0 then ([], false)
    else
      var li := items[0];
      var rest := MapChannels(items[1..], listed);
      if NameOf(li) == "" then rest
      else if li.link == Some(None) then ([], true)
      else ([ChannelOf(li, listed)] + rest.0, rest.1)
  }

  /** Index of the first item that breaks the loop, or the item count. */
  function FirstBreak(items: seq<ChannelItem>): (n: nat)
    ensures n <= |items|
  {
    if |items| == 0 then 0
    else if Breaks(items[0]) then 0
    else 1 + FirstBreak(items[1..])
  }

  lemma {:induction false} FirstBreakSpec(items: seq<ChannelItem>)
    ensures forall i :: 0 <= i < FirstBreak(items) ==> !Breaks(items[i])
    ensures FirstBreak(items) < |items| ==> Breaks(items[FirstBreak(items)])
  {
    if |items| > 0 && !Breaks(items[0]) {
      FirstBreakSpec(items[1..]);
      assert forall i :: 1 <= i < |items| ==> items[i] == items[1..][i - 1];
    }
  }

  /** The items before the first breaking one. */
  function BeforeBreak(items: seq<ChannelItem>): seq<ChannelItem>
  {
    if |items| == 0 || Breaks(items[0]) then [] else [items[0]] + BeforeBreak(items[1..])
  }

  lemma {:induction false} BeforeBreakPrefix(items: seq<ChannelItem>)
    ensures BeforeBreak(items) == items[..FirstBreak(items)]
  {
    if |items| > 0 && !Breaks(items[0]) {
      BeforeBreakPrefix(items[1..]);
      assert items[..FirstBreak(items)] == [items[0]] + items[1..][..FirstBreak(items[1..])];
    }
  }

  /** The named items, in order. */
  function Named(items: seq<ChannelItem>): seq<ChannelItem>
  {
    if |items| == 0 then []
    else (if NameOf(items[0]) != "" then [items[0]] else []) + Named(items[1..])
  }

  function Records(items: seq<ChannelItem>, listed: bool): seq<TbcChannel>
  {
    if |items| == 0 then [] else [ChannelOf(items[0], listed)] + Records(items[1..], listed)
  }

  lemma NamedCons(x: ChannelItem, t: seq<ChannelItem>)
    ensures Named([x] + t) == (if NameOf(x) != "" then [x] else []) + Named(t)
  {
    assert ([x] + t)[1..] == t;
  }

  lemma RecordsCons(x: ChannelItem, t: seq<ChannelItem>, listed: bool)
    ensures Records([x] + t, listed) == [ChannelOf(x, listed)] + Records(t, listed)
  {
    assert ([x] + t)[1..] == t;
  }

  /** The loop builds one record per named item before the first breaking one. */
  lemma {:induction false} MapChannelsSpec(items: seq<ChannelItem>, listed: bool)
    ensures MapChannels(items, listed).0 == Records(Named(BeforeBreak(items)), listed)
  {
    if |items| > 0 && !Breaks(items[0]) {
      var x := items[0];
      var tail := items[1..];
      MapChannelsSpec(tail, listed);
      assert BeforeBreak(items) == [x] + BeforeBreak(tail);
      NamedCons(x, BeforeBreak(tail));
      if NameOf(x) != "" {
        RecordsCons(x, Named(BeforeBreak(tail)), listed);
      } else {
        assert [] + Named(BeforeBreak(tail)) == Named(BeforeBreak(tail));
      }
    }
  }

  /** The loop fails exactly when some named item has a link without `href`. */
  lemma {:induction false} MapChannelsFails(items: seq<ChannelItem>, listed: bool)
    ensures MapChannels(items, listed).1 <==> FirstBreak(items) < |items|
  {
    if |items| > 0 {
      MapChannelsFails(items[1..], listed);
    }
  }

  /** A record as both scrapers build it: a non-empty stripped name, one id, and the
      fixed source, description and category. */
  predicate WellFormed(c: TbcChannel)
  {
    c.name != "" && Strip(c.name) == c.name && |c.ids| == 1 && c.source == "tbc" && c.desc == "" && c.sort == "海外"
  }

  lemma {:induction false} RecordsWellFormed(items: seq<ChannelItem>, listed: bool)
    ensures forall c :: c in Records(Named(items), listed) ==> WellFormed(c)
  {
    if |items| > 0 {
      RecordsWellFormed(items[1..], listed);
      var x := items[0];
      NamedCons(x, items[1..]);
      assert items == [x] + items[1..];
      if NameOf(x) != "" {
        RecordsCons(x, Named(items[1..]), listed);
        StripIdempotent(OrEmpty(x.title));
      } else {
        assert Named(items) == Named(items[1..]);
      }
    }
  }

  /** Every record the loop builds is well formed. */
  lemma MapChannelsWellFormed(items: seq<ChannelItem>, listed: bool)
    ensures forall c :: c in MapChannels(items, listed).0 ==> WellFormed(c)
  {
    MapChannelsSpec(items, listed);
    RecordsWellFormed(BeforeBreak(items), listed);
  }

  /** `datetime.strptime(f"{date} {hh}:{mm}", "%Y/%m/%d %H:%M")`. */
  function ReadClock(date: string, hh: string, mm: string): Option<DateTime>
  {
    Strptime(SlashMinuteFormat, date + " " + hh + ":" + mm)
  }

  /** Minutes since midnight of a clock reading. */
  function ClockMinutes(hh: string, mm: string): int
    requires AllDigits(hh) && AllDigits(mm)
  {
    Value(hh) * 60 + Value(mm)
  }

  /** How a guide reader sees the channel of `c`. */
  function EntryOf(c: TbcChannel): ChannelEntry
  {
    ChannelEntry(IdOf(c), Some(c.name), if c.logo != "" then Some(c.logo) else None)
  }

  /** The entries a reader finds for a run of channels. */
  function Entries(cs: seq<TbcChannel>): seq<ChannelEntry>
  {
    seq(|cs|, i requires 0 <= i < |cs| => EntryOf(cs[i]))
  }
}
