/** `datetime.strptime` and `datetime.strftime` for the formats the scrapers use,
    as CPython's `_strptime` implements them: each directive is a regular-expression
    alternation tried in order, a space in the format reads one or more whitespace
    characters, the regular expression may match a prefix only (text left over is
    an error), and the fields are then checked by the `datetime` constructor. */
module TimeFormat {
  import opened Outcome
  import opened Text
  import opened Civil

  /** The directives `%Y %m %d %H %M %S`. */
  datatype Field = Year | Month | Day | Hour | Minute | Second

  /** One element of a format: a directive, a literal character, or a space. */
  datatype Piece = Num(field: Field) | Lit(c: char) | Blank

  /** The field values strptime has read so far. */
  datatype Parts = Parts(year: int, month: int, day: int, hour: int, minute: int, second: int)

  /** What strptime assumes for a field the format does not mention. */
  const Defaults: Parts := Parts(1900, 1, 1, 0, 0, 0)

  function Put(p: Parts, f: Field, v: int): Parts
  {
    match f
    case Year => p.(year := v)
    case Month => p.(month := v)
    case Day => p.(day := v)
    case Hour => p.(hour := v)
    case Minute => p.(minute := v)
    case Second => p.(second := v)
  }

  function Get(t: DateTime, f: Field): int
  {
    match f
    case Year => t.date.year
    case Month => t.date.month
    case Day => t.date.day
    case Hour => t.hour
    case Minute => t.minute
    case Second => t.second
  }

  /** The least value of a directive's one- and two-digit alternatives
      (`%m` and `%d` have no zero). */
  function Low(f: Field): int
  {
    if f == Month || f == Day then 1 else 0
  }

  /** The greatest value of a directive's two-digit alternatives
      (`%S` admits the leap seconds 60 and 61, which the constructor then refuses). */
  function High(f: Field): int
  {
    match f
    case Year => 9999
    case Month => 12
    case Day => 31
    case Hour => 23
    case Minute => 59
    case Second => 61
  }

  function TwoDigitValue(s: string): nat
    requires |s| >= 2 && IsDigit(s[0]) && IsDigit(s[1])
  {
    10 * DigitValue(s[0]) + DigitValue(s[1])
  }

  /** The ways a directive's regular expression matches at the front of `s`, in the
      order its alternation tries them, as (value, characters consumed): `%Y` is
      exactly four digits; the others try two digits, then one digit, and `%d` last
      tries a space followed by a digit from 1 to 9. */
  function Tokens(f: Field, s: string): seq<(int, nat)>
  {
    if f == Year then
      if |s| >= 4 && AllDigits(s[..4]) then [(Value(s[..4]), 4)] else []
    else
      var two := if |s| >= 2 && IsDigit(s[0]) && IsDigit(s[1]) && Low(f) <= TwoDigitValue(s) <= High(f)
                 then [(TwoDigitValue(s) as int, 2)] else [];
      var one := if |s| >= 1 && IsDigit(s[0]) && Low(f) <= DigitValue(s[0])
                 then [(DigitValue(s[0]) as int, 1)] else [];
      var spaced := if f == Day && |s| >= 2 && s[0] == ' ' && '1' <= s[1] <= '9'
                    then [(DigitValue(s[1]) as int, 2)] else [];
      two + one + spaced
  }

  /** Every alternative consumes at least one and at most all the characters. */
  lemma TokensFit(f: Field, s: string)
    ensures forall i :: 0 <= i < |Tokens(f, s)| ==> 0 < Tokens(f, s)[i].1 <= |s|
  {
  }

  function Shift(r: Option<(Parts, nat)>, k: nat): Option<(Parts, nat)>
  {
    match r
    case None => None
    case Some(m) => Some((m.0, m.1 + k))
  }

  /** The first match, in backtracking order, of the format's regular expression at
      the front of `s`: the fields read and the number of characters consumed. */
  function Match(fmt: seq<Piece>, s: string, acc: Parts): (r: Option<(Parts, nat)>)
    ensures r.Some? ==> r.value.1 <= |s|
    decreases |fmt|, 2, 0
  {
    if |fmt| == 0 then
      Some((acc, 0))
    else
      match fmt[0]
      case Lit(c) =>
        if |s| > 0 && s[0] == c then Shift(Match(fmt[1..], s[1..], acc), 1) else None
      case Num(f) =>
        TokensFit(f, s);
        TryTokens(f, Tokens(f, s), fmt[1..], s, acc)
      case Blank => TryBlank(LeadingSpaces(s), fmt[1..], s, acc)
  }

  /** Backtracking over a directive's alternatives. */
  function TryTokens(f: Field, ts: seq<(int, nat)>, rest: seq<Piece>, s: string, acc: Parts)
    : (r: Option<(Parts, nat)>)
    requires forall i :: 0 <= i < |ts| ==> ts[i].1 <= |s|
    ensures r.Some? ==> r.value.1 <= |s|
    decreases |rest| + 1, 1, |ts|
  {
    if |ts| == 0 then
      None
    else
      var r := Match(rest, s[ts[0].1..], Put(acc, f, ts[0].0));
      if r.Some? then Shift(r, ts[0].1) else TryTokens(f, ts[1..], rest, s, acc)
  }

  /** Backtracking over how much whitespace `\s+` takes, greedy first. */
  function TryBlank(k: nat, rest: seq<Piece>, s: string, acc: Parts): (r: Option<(Parts, nat)>)
    requires k <= |s|
    ensures r.Some? ==> r.value.1 <= |s|
    decreases |rest| + 1, 1, k
  {
    if k == 0 then
      None
    else
      var r := Match(rest, s[k..], acc);
      if r.Some? then Shift(r, k) else TryBlank(k - 1, rest, s, acc)
  }

  /** The `datetime` constructor's checks on the fields read. */
  function Build(p: Parts): (r: Option<DateTime>)
    ensures r.Some? ==> ValidDateTime(r.value) && InRange(r.value.date)
    ensures r.Some? ==> r.value == DateTime(Date(p.year, p.month, p.day), p.hour, p.minute, p.second)
  {
    var t := DateTime(Date(p.year, p.month, p.day), p.hour, p.minute, p.second);
    if p.year <= 9999 && ValidDateTime(t) then Some(t) else None
  }

  /** `datetime.strptime(s, fmt)`; `None` stands for the `ValueError` it raises. */
  function Strptime(fmt: seq<Piece>, s: string): (r: Option<DateTime>)
    ensures r.Some? ==> ValidDateTime(r.value) && InRange(r.value.date)
  {
    match Match(fmt, s, Defaults)
    case None => None
    case Some(m) => if m.1 == |s| then Build(m.0) else None
  }

  /** A date-time every directive can print at its width. */
  predicate Printable(t: DateTime)
  {
    ValidDateTime(t) && InRange(t.date)
  }

  function Width(f: Field): nat
  {
    if f == Year then 4 else 2
  }

  function Render(p: Piece, t: DateTime): (r: string)
    requires Printable(t)
    ensures p.Num? ==> |r| == Width(p.field)
  {
    match p
    case Num(f) =>
      assert 0 <= Get(t, f) < Pow10(Width(f)) by {
        assert Pow10(2) == 100;
        assert Pow10(4) == 10000;
      }
      Padded(Get(t, f), Width(f))
    case Lit(c) => [c]
    case Blank => " "
  }

  /** A directive prints the digits of its field. */
  lemma RenderNum(f: Field, t: DateTime)
    requires Printable(t)
    ensures AllDigits(Render(Num(f), t)) && Value(Render(Num(f), t)) == Get(t, f)
  {
    assert Pow10(2) == 100 && Pow10(4) == 10000;
    PaddedValue(Get(t, f), Width(f));
  }

  /** `t.strftime(fmt)`: directives zero-padded to their width. */
  function Strftime(fmt: seq<Piece>, t: DateTime): string
    requires Printable(t)
  {
    if |fmt| == 0 then "" else Render(fmt[0], t) + Strftime(fmt[1..], t)
  }

  lemma {:induction false} StrftimeAppend(a: seq<Piece>, b: seq<Piece>, t: DateTime)
    requires Printable(t)
    ensures Strftime(a + b, t) == Strftime(a, t) + Strftime(b, t)
  {
    if |a| > 0 {
      assert (a + b)[1..] == a[1..] + b;
      StrftimeAppend(a[1..], b, t);
    } else {
      assert a + b == b;
    }
  }

  /** The fields of `t` the format prints, written over `acc`. */
  function Fill(fmt: seq<Piece>, t: DateTime, acc: Parts): Parts
  {
    if |fmt| == 0 then acc else Fill(fmt[1..], t, Step(fmt[0], t, acc))
  }

  /** The field of `t` one piece of a format prints, written over `acc`. */
  function Step(p: Piece, t: DateTime, acc: Parts): Parts
  {
    if p.Num? then Put(acc, p.field, Get(t, p.field)) else acc
  }

  /** Every directive is followed by a non-digit literal or a space, and every space
      by a directive: the shape under which a printed value reads back unchanged. */
  predicate Separated(fmt: seq<Piece>)
  {
    forall i :: 0 <= i < |fmt| - 1 ==>
      && (fmt[i].Num? ==> fmt[i + 1].Blank? || (fmt[i + 1].Lit? && !IsDigit(fmt[i + 1].c)))
      && (fmt[i].Blank? ==> fmt[i + 1].Num?)
  }

  lemma TokensOfPrinted(f: Field, t: DateTime, u: string)
    requires Printable(t)
    ensures var s := Render(Num(f), t) + u;
      && |Tokens(f, s)| >= 1
      && Tokens(f, s)[0] == (Get(t, f), Width(f))
      && forall i :: 1 <= i < |Tokens(f, s)| ==> Tokens(f, s)[i].1 == 1
  {
    var r := Render(Num(f), t);
    var s := r + u;
    RenderNum(f, t);
    if f == Year {
      assert s[..4] == r;
    } else {
      assert r[..1] == r[..|r| - 1];
      assert Value(r) == TwoDigitValue(s);
    }
  }

  /** A literal in the format consumes the same character of the input. */
  lemma MatchLit(c: char, rest: seq<Piece>, s: string, acc: Parts)
    ensures Match([Lit(c)] + rest, [c] + s, acc) == Shift(Match(rest, s, acc), 1)
  {
    assert ([Lit(c)] + rest)[1..] == rest;
    assert ([c] + s)[1..] == s;
  }

  /** A space in the format consumes exactly one printed space when no further
      whitespace follows it. */
  lemma MatchBlank(rest: seq<Piece>, s: string, acc: Parts)
    requires |s| == 0 || !IsSpace(s[0])
    ensures Match([Blank] + rest, " " + s, acc) == Shift(Match(rest, s, acc), 1)
  {
    var S := " " + s;
    assert ([Blank] + rest)[1..] == rest;
    assert LeadingSpaces(S) == 1 by {
      assert |S| == 1 || S[1] == s[0];
    }
    assert S[1..] == s;
    assert TryBlank(0, rest, S, acc) == None;
  }

  /** A printed directive is read back at its full width: the shorter alternative
      leaves a digit that neither a space nor a non-digit literal can consume. */
  lemma MatchNum(f: Field, rest: seq<Piece>, t: DateTime, s: string, acc: Parts)
    requires Printable(t)
    requires |rest| == 0 || rest[0].Blank? || (rest[0].Lit? && !IsDigit(rest[0].c))
    ensures Match([Num(f)] + rest, Render(Num(f), t) + s, acc)
         == Shift(Match(rest, s, Put(acc, f, Get(t, f))), Width(f))
  {
    var head := Render(Num(f), t);
    var S := head + s;
    var w := Width(f);
    TokensOfPrinted(f, t, s);
    RenderNum(f, t);
    assert ([Num(f)] + rest)[1..] == rest;
    assert S[w..] == s;
    var ts := Tokens(f, S);
    var r := Match(rest, s, Put(acc, f, Get(t, f)));
    assert Match([Num(f)] + rest, S, acc) == TryTokens(f, ts, rest, S, acc);
    if r.None? {
      assert |rest| > 0;
      assert TryTokens(f, ts, rest, S, acc) == TryTokens(f, ts[1..], rest, S, acc);
      if |ts| > 1 {
        assert ts[1].1 == 1;
        var s1 := S[1..];
        assert IsDigit(s1[0]) by {
          assert s1[0] == head[1];
        }
        match rest[0] {
          case Blank =>
            assert LeadingSpaces(s1) == 0;
          case Lit(c) =>
            assert s1[0] != c;
          case Num(_) =>
        }
        assert Match(rest, s1, Put(acc, f, ts[1].0)).None?;
        assert |ts| == 2;
        assert ts[1..][0] == ts[1] && ts[1..][1..] == ts[2..];
        assert S[ts[1].1..] == s1;
        assert TryTokens(f, ts[1..], rest, S, acc) == TryTokens(f, ts[2..], rest, S, acc);
      }
    }
  }

  /** A printed format that starts with a directive starts with a digit. */
  lemma PrintedStartsWithDigit(fmt: seq<Piece>, t: DateTime, u: string)
    requires Printable(t)
    requires |fmt| > 0 && fmt[0].Num?
    ensures |Strftime(fmt, t) + u| > 0 && IsDigit((Strftime(fmt, t) + u)[0])
  {
    var h := Render(fmt[0], t);
    RenderNum(fmt[0].field, t);
    assert (Strftime(fmt, t) + u)[0] == h[0];
  }

  /** Separation is kept by the rest of a format. */
  lemma SeparatedTail(F: seq<Piece>)
    requires |F| > 0 && Separated(F)
    ensures Separated(F[1..])
  {
    var rest := F[1..];
    forall i | 0 <= i < |rest| - 1
      ensures && (rest[i].Num? ==> rest[i + 1].Blank? || (rest[i + 1].Lit? && !IsDigit(rest[i + 1].c)))
              && (rest[i].Blank? ==> rest[i + 1].Num?)
    {
      assert rest[i] == F[i + 1] && rest[i + 1] == F[i + 2];
    }
  }

  /** The first piece of a separated format reads back what it printed. */
  lemma MatchHead(F: seq<Piece>, t: DateTime, s: string, acc: Parts)
    requires Printable(t)
    requires |F| > 0 && Separated(F)
    requires F[0].Blank? ==> |s| == 0 || !IsSpace(s[0])
    ensures Match(F, Render(F[0], t) + s, acc)
         == Shift(Match(F[1..], s, Step(F[0], t, acc)), |Render(F[0], t)|)
  {
    var rest := F[1..];
    assert F == [F[0]] + rest;
    match F[0]
    case Lit(c) =>
      MatchLit(c, rest, s, acc);
    case Num(f) =>
      assert |rest| == 0 || rest[0] == F[1];
      MatchNum(f, rest, t, s, acc);
    case Blank =>
      MatchBlank(rest, s, acc);
  }

  lemma ShiftShift(r: Option<(Parts, nat)>, a: nat, b: nat)
    ensures Shift(Shift(r, a), b) == Shift(r, a + b)
  {
  }

  /** Reading a printed format back: the regular expression takes exactly the printed
      characters and the printed values, whatever follows them. */
  lemma {:induction false} MatchPrinted(fmt: seq<Piece>, tail: seq<Piece>, t: DateTime, u: string, acc: Parts)
    requires Printable(t)
    requires Separated(fmt + tail)
    requires |u| == 0 || !IsSpace(u[0])
    ensures Match(fmt + tail, Strftime(fmt, t) + u, acc)
         == Shift(Match(tail, u, Fill(fmt, t, acc)), |Strftime(fmt, t)|)
    decreases |fmt|
  {
    if |fmt| == 0 {
      assert fmt + tail == tail;
      assert Strftime(fmt, t) + u == u;
      match Match(tail, u, acc) {
        case None =>
        case Some(m) =>
      }
    } else {
      var acc' := Step(fmt[0], t, acc);
      MatchPrintedHead(fmt, tail, t, u, acc);
      MatchPrinted(fmt[1..], tail, t, u, acc');
      ShiftShift(Match(tail, u, Fill(fmt[1..], t, acc')), |Strftime(fmt[1..], t)|, |Render(fmt[0], t)|);
    }
  }

  /** The first piece of a printed format reads back first. */
  lemma MatchPrintedHead(fmt: seq<Piece>, tail: seq<Piece>, t: DateTime, u: string, acc: Parts)
    requires Printable(t)
    requires |fmt| > 0 && Separated(fmt + tail)
    requires |u| == 0 || !IsSpace(u[0])
    ensures Separated(fmt[1..] + tail)
    ensures Match(fmt + tail, Strftime(fmt, t) + u, acc)
         == Shift(Match(fmt[1..] + tail, Strftime(fmt[1..], t) + u, Step(fmt[0], t, acc)), |Render(fmt[0], t)|)
  {
    var F := fmt + tail;
    var head := Render(fmt[0], t);
    var S' := Strftime(fmt[1..], t) + u;
    assert Strftime(fmt, t) + u == head + S';
    assert F[0] == fmt[0] && F[1..] == fmt[1..] + tail;
    if fmt[0].Blank? && |fmt| > 1 {
      assert F[1] == fmt[1];
      PrintedStartsWithDigit(fmt[1..], t, u);
    }
    MatchHead(F, t, S', acc);
    SeparatedTail(F);
  }

  /** The value `p` holds for field `f`. */
  function PartOf(p: Parts, f: Field): int
  {
    match f
    case Year => p.year
    case Month => p.month
    case Day => p.day
    case Hour => p.hour
    case Minute => p.minute
    case Second => p.second
  }

  /** After reading a printed format, a field holds `t`'s value when the format
      prints it and keeps its earlier value otherwise. */
  lemma {:induction false} FillField(fmt: seq<Piece>, t: DateTime, acc: Parts, f: Field)
    ensures PartOf(Fill(fmt, t, acc), f) == if Num(f) in fmt then Get(t, f) else PartOf(acc, f)
  {
    if |fmt| > 0 {
      FillField(fmt[1..], t, Step(fmt[0], t, acc), f);
      assert fmt == [fmt[0]] + fmt[1..];
      assert Num(f) in fmt <==> fmt[0] == Num(f) || Num(f) in fmt[1..];
    }
  }

  /** `datetime.strptime(t.strftime(fmt), fmt)` for a separated format: the fields the
      format prints come back, the others take strptime's defaults. */
  lemma StrptimeOfStrftime(fmt: seq<Piece>, t: DateTime)
    requires Printable(t)
    requires Separated(fmt)
    ensures Strptime(fmt, Strftime(fmt, t)) == Build(Fill(fmt, t, Defaults))
  {
    MatchPrinted(fmt, [], t, "", Defaults);
    assert fmt + [] == fmt;
    assert Strftime(fmt, t) + "" == Strftime(fmt, t);
  }

  /** A format that prints all six fields reads every printable date-time back. */
  lemma StrptimeOfStrftimeComplete(fmt: seq<Piece>, t: DateTime)
    requires Printable(t)
    requires Separated(fmt)
    requires forall f: Field :: Num(f) in fmt
    ensures Strptime(fmt, Strftime(fmt, t)) == Some(t)
  {
    StrptimeOfStrftime(fmt, t);
    var p := Fill(fmt, t, Defaults);
    assert Num(Year) in fmt && Num(Month) in fmt && Num(Day) in fmt;
    assert Num(Hour) in fmt && Num(Minute) in fmt && Num(Second) in fmt;
    FillField(fmt, t, Defaults, Year);
    assert p.year == t.date.year;
    FillField(fmt, t, Defaults, Month);
    assert p.month == t.date.month;
    FillField(fmt, t, Defaults, Day);
    assert p.day == t.date.day;
    FillField(fmt, t, Defaults, Hour);
    assert p.hour == t.hour;
    FillField(fmt, t, Defaults, Minute);
    assert p.minute == t.minute;
    FillField(fmt, t, Defaults, Second);
    assert p.second == t.second;
    assert DateTime(Date(p.year, p.month, p.day), p.hour, p.minute, p.second) == t;
  }

  /** `%Y/%m/%d`, the TBC day key. */
  const SlashDateFormat: seq<Piece> := [Num(Year), Lit('/'), Num(Month), Lit('/'), Num(Day)]

  /** `%Y/%m/%d %H:%M`, how the TBC scrapers read a day and a clock time. */
  const SlashMinuteFormat: seq<Piece> := SlashDateFormat + [Blank] + ClockFormat

  /** `%H:%M`. */
  const ClockFormat: seq<Piece> := [Num(Hour), Lit(':'), Num(Minute)]

  /** `%Y-%m-%d`, the Hami request date. */
  const DashDateFormat: seq<Piece> := [Num(Year), Lit('-'), Num(Month), Lit('-'), Num(Day)]

  /** `%H:%M:%S`. */
  const ClockSecondFormat: seq<Piece> := ClockFormat + [Lit(':'), Num(Second)]

  /** `%Y-%m-%d %H:%M:%S`, the Hami and 4GTV time stamps. */
  const DashSecondFormat: seq<Piece> := DashDateFormat + [Blank] + ClockSecondFormat

  /** `%Y%m%d%H%M%S`, the digits of an XMLTV time stamp. */
  const StampFormat: seq<Piece> := [Num(Year), Num(Month), Num(Day), Num(Hour), Num(Minute), Num(Second)]

  lemma DashSecondShape()
    ensures DashSecondFormat == [Num(Year), Lit('-'), Num(Month), Lit('-'), Num(Day), Blank,
                                 Num(Hour), Lit(':'), Num(Minute), Lit(':'), Num(Second)]
  {
  }

  lemma DashSecondSeparated()
    ensures Separated(DashSecondFormat)
    ensures forall f: Field :: Num(f) in DashSecondFormat
  {
    DashSecondShape();
    DashSecondFields();
  }

  lemma DashSecondFields()
    ensures forall f: Field :: Num(f) in DashSecondFormat
  {
    DashSecondShape();
    var F := DashSecondFormat;
    forall f: Field
      ensures Num(f) in F
    {
      var i := match f
        case Year => 0 case Month => 2 case Day => 4
        case Hour => 6 case Minute => 8 case Second => 10;
      assert F[i] == Num(f);
    }
  }

  lemma SlashMinuteSeparated()
    ensures Separated(SlashMinuteFormat)
  {
    var F := SlashMinuteFormat;
    assert F == [Num(Year), Lit('/'), Num(Month), Lit('/'), Num(Day), Blank,
                 Num(Hour), Lit(':'), Num(Minute)];
  }

  /** `%Y-%m-%d %H:%M:%S` reads back every printable date-time it prints. */
  lemma DashSecondRoundTrip(t: DateTime)
    requires Printable(t)
    ensures Strptime(DashSecondFormat, Strftime(DashSecondFormat, t)) == Some(t)
  {
    DashSecondSeparated();
    StrptimeOfStrftimeComplete(DashSecondFormat, t);
  }

  /** A character that is no digit, no space and no literal of the format does not
      occur in what the format prints. */
  lemma {:induction false} StrftimeAvoids(fmt: seq<Piece>, t: DateTime, c: char)
    requires Printable(t)
    requires !IsDigit(c) && c != ' ' && Lit(c) !in fmt
    ensures c !in Strftime(fmt, t)
  {
    if |fmt| > 0 {
      assert Lit(c) !in fmt[1..] by {
        assert forall i :: 0 <= i < |fmt[1..]| ==> fmt[1..][i] == fmt[i + 1];
      }
      StrftimeAvoids(fmt[1..], t, c);
      if fmt[0].Num? {
        RenderNum(fmt[0].field, t);
      }
      assert c !in Render(fmt[0], t);
    }
  }

  /** `%H:%M` prints five characters and reads back as the hour and minute on
      strptime's default day, 1900-01-01. */
  lemma ClockRoundTrip(t: DateTime)
    requires Printable(t)
    ensures |Strftime(ClockFormat, t)| == 5
    ensures Strptime(ClockFormat, Strftime(ClockFormat, t)) == Some(DateTime(Date(1900, 1, 1), t.hour, t.minute, 0))
  {
    ClockWidth(t);
    var F := ClockFormat;
    assert Separated(F);
    StrptimeOfStrftime(F, t);
    assert F[1..] == [Lit(':'), Num(Minute)] && F[1..][1..] == [Num(Minute)] && [Num(Minute)][1..] == [];
    var a := Put(Defaults, Hour, t.hour);
    assert Fill(F, t, Defaults) == Fill(F[1..], t, a);
    assert Fill(F[1..], t, a) == Fill([Num(Minute)], t, a);
    assert Fill([Num(Minute)], t, a) == Parts(1900, 1, 1, t.hour, t.minute, 0);
    assert DaysInMonth(1900, 1) == 31;
  }

  lemma ClockWidth(t: DateTime)
    requires Printable(t)
    ensures |Strftime(ClockFormat, t)| == 5
  {
    var F := ClockFormat;
    assert F[1..] == [Lit(':'), Num(Minute)] && F[1..][1..] == [Num(Minute)] && [Num(Minute)][1..] == [];
    assert Strftime(F, t) == Render(F[0], t) + Strftime(F[1..], t);
    assert Strftime(F[1..], t) == ":" + Strftime([Num(Minute)], t);
    assert Strftime([Num(Minute)], t) == Render(Num(Minute), t) + "";
  }

  /** Midnight at the start of `d`. */
  function Midnight(d: Date): DateTime
  {
    DateTime(d, 0, 0, 0)
  }

  /** `d.strftime('%Y/%m/%d')`. */
  function SlashDate(d: Date): (r: string)
    requires InRange(d)
  {
    Strftime(SlashDateFormat, Midnight(d))
  }

  /** The clock digits `hh` and `mm` name a time `%H:%M` reads in full: one or two
      digits of an hour up to 23 and one or two digits of a minute up to 59. */
  predicate ClockFits(hh: string, mm: string)
    requires AllDigits(hh) && AllDigits(mm)
  {
    1 <= |hh| <= 2 && Value(hh) <= 23 && 1 <= |mm| <= 2 && Value(mm) <= 59
  }

  lemma TwoDigitsValue(s: string)
    requires |s| >= 2 && AllDigits(s)
    ensures Value(s[..2]) == TwoDigitValue(s)
  {
    var t := s[..2];
    assert t[..1] == s[..1];
    assert Value(s[..1]) == DigitValue(s[0]) by {
      assert s[..1][..0] == [];
    }
    assert Value(t) == Value(t[..1]) * 10 + DigitValue(t[1]);
  }

  /** `%M` at the front of a digit string: it always reads something, and it reads
      the whole string exactly when the string is a minute of one or two digits. */
  lemma MatchMinute(mm: string, acc: Parts)
    requires AllDigits(mm) && |mm| > 0
    ensures var r := Match([Num(Minute)], mm, acc);
      && r.Some?
      && (r.value.1 == |mm| <==> |mm| <= 2 && Value(mm) <= 59)
      && (r.value.1 == |mm| ==> r.value.0 == Put(acc, Minute, Value(mm)))
  {
    var ts := Tokens(Minute, mm);
    assert [Num(Minute)][1..] == [];
    assert Match([Num(Minute)], mm, acc) == TryTokens(Minute, ts, [], mm, acc);
    assert Value(mm[..1]) == DigitValue(mm[0]);
    if |mm| >= 2 {
      TwoDigitsValue(mm);
      if |mm| == 2 {
        assert mm[..2] == mm;
      }
    } else {
      assert mm[..1] == mm;
    }
  }

  /** `%H:%M` at the front of `hh:mm` tries the hour's alternatives in turn. */
  lemma ClockStart(hh: string, mm: string, acc: Parts)
    requires AllDigits(hh) && |hh| > 0
    ensures var s := hh + ":" + mm;
      Match(ClockFormat, s, acc) == TryTokens(Hour, Tokens(Hour, s), [Lit(':'), Num(Minute)], s, acc)
  {
    assert ClockFormat[1..] == [Lit(':'), Num(Minute)];
  }

  /** The rest of `%H:%M` after the hour, `:%M`, on `:mm`. */
  lemma ClockAfterHour(mm: string, a: Parts)
    requires AllDigits(mm) && |mm| > 0
    ensures var r := Match([Lit(':'), Num(Minute)], ":" + mm, a);
      && r.Some?
      && (r.value.1 == 1 + |mm| <==> |mm| <= 2 && Value(mm) <= 59)
      && (r.value.1 == 1 + |mm| ==> r.value.0 == Put(a, Minute, Value(mm)))
  {
    assert [Lit(':'), Num(Minute)] == [Lit(':')] + [Num(Minute)];
    assert ":" + mm == [':'] + mm;
    MatchLit(':', [Num(Minute)], mm, a);
    MatchMinute(mm, a);
  }

  /** A one-digit hour. */
  lemma ClockOneDigitHour(hh: string, mm: string, acc: Parts)
    requires AllDigits(hh) && AllDigits(mm) && |hh| == 1 && |mm| > 0
    ensures var r := Match(ClockFormat, hh + ":" + mm, acc);
      && ((r.Some? && r.value.1 == |hh| + 1 + |mm|) <==> ClockFits(hh, mm))
      && (ClockFits(hh, mm) ==> r == Some((Put(Put(acc, Hour, Value(hh)), Minute, Value(mm)), |hh| + 1 + |mm|)))
  {
    var s := hh + ":" + mm;
    var rest := [Lit(':'), Num(Minute)];
    ClockStart(hh, mm, acc);
    var ts := Tokens(Hour, s);
    assert Value(hh) == DigitValue(hh[0]) by {
      assert hh[..0] == [];
    }
    assert s[1] == ':';
    assert ts == [(DigitValue(hh[0]) as int, 1)];
    assert s[1..] == ":" + mm;
    ClockAfterHour(mm, Put(acc, Hour, Value(hh)));
    assert TryTokens(Hour, ts[1..], rest, s, acc) == None;
  }

  /** A two-digit hour: read whole when at most 23, otherwise nothing fits. */
  lemma ClockTwoDigitHour(hh: string, mm: string, acc: Parts)
    requires AllDigits(hh) && AllDigits(mm) && |hh| == 2 && |mm| > 0
    ensures var r := Match(ClockFormat, hh + ":" + mm, acc);
      && ((r.Some? && r.value.1 == |hh| + 1 + |mm|) <==> ClockFits(hh, mm))
      && (ClockFits(hh, mm) ==> r == Some((Put(Put(acc, Hour, Value(hh)), Minute, Value(mm)), |hh| + 1 + |mm|)))
  {
    var s := hh + ":" + mm;
    var rest := [Lit(':'), Num(Minute)];
    ClockStart(hh, mm, acc);
    var ts := Tokens(Hour, s);
    TwoDigitsValue(hh);
    assert hh[..2] == hh;
    assert s[0] == hh[0] && s[1] == hh[1];
    assert TwoDigitValue(s) == Value(hh);
    if Value(hh) <= 23 {
      assert ts[0] == (Value(hh), 2);
      assert s[2..] == ":" + mm;
      ClockAfterHour(mm, Put(acc, Hour, Value(hh)));
    } else {
      assert ts == [(DigitValue(hh[0]) as int, 1)];
      assert Match(rest, s[1..], Put(acc, Hour, DigitValue(hh[0]))) == None;
      assert TryTokens(Hour, ts[1..], rest, s, acc) == None;
    }
  }

  /** An hour of three or more digits: no alternative is followed by the colon. */
  lemma ClockLongHour(hh: string, mm: string, acc: Parts)
    requires AllDigits(hh) && |hh| > 2
    ensures Match(ClockFormat, hh + ":" + mm, acc) == None
  {
    var s := hh + ":" + mm;
    var rest := [Lit(':'), Num(Minute)];
    ClockStart(hh, mm, acc);
    var ts := Tokens(Hour, s);
    assert s[1] == hh[1] && s[2] == hh[2];
    assert forall i :: 0 <= i < |ts| ==> Match(rest, s[ts[i].1..], Put(acc, Hour, ts[i].0)) == None;
    assert |ts| <= 2;
    if |ts| == 2 {
      assert TryTokens(Hour, ts[1..], rest, s, acc) == TryTokens(Hour, ts[2..], rest, s, acc);
    }
  }

  /** `%H:%M` at the front of `hh:mm` for digit strings `hh` and `mm`: it reads the
      whole text exactly when the digits fit a clock, and then reads their values. */
  lemma MatchClock(hh: string, mm: string, acc: Parts)
    requires AllDigits(hh) && AllDigits(mm) && |hh| > 0 && |mm| > 0
    ensures var r := Match(ClockFormat, hh + ":" + mm, acc);
      && ((r.Some? && r.value.1 == |hh| + 1 + |mm|) <==> ClockFits(hh, mm))
      && (ClockFits(hh, mm) ==> r == Some((Put(Put(acc, Hour, Value(hh)), Minute, Value(mm)), |hh| + 1 + |mm|)))
  {
    if |hh| == 1 {
      ClockOneDigitHour(hh, mm, acc);
    } else if |hh| == 2 {
      ClockTwoDigitHour(hh, mm, acc);
    } else {
      ClockLongHour(hh, mm, acc);
    }
  }

  /** Reading `%Y/%m/%d ` back from a printed day sets the date fields and leaves
      the clock at strptime's default midnight. */
  lemma FillSlashDate(d: Date)
    ensures Fill(SlashDateFormat + [Blank], Midnight(d), Defaults) == Parts(d.year, d.month, d.day, 0, 0, 0)
  {
    var fmt := SlashDateFormat + [Blank];
    var t := Midnight(d);
    assert fmt == [Num(Year), Lit('/'), Num(Month), Lit('/'), Num(Day), Blank];
    assert fmt[0] == Num(Year) && fmt[2] == Num(Month) && fmt[4] == Num(Day);
    FillField(fmt, t, Defaults, Year);
    FillField(fmt, t, Defaults, Month);
    FillField(fmt, t, Defaults, Day);
    FillField(fmt, t, Defaults, Hour);
    FillField(fmt, t, Defaults, Minute);
    FillField(fmt, t, Defaults, Second);
  }

  /** `datetime.strptime(f"{SlashDate(d)} {hh}:{mm}", "%Y/%m/%d %H:%M")` for digit
      strings `hh` and `mm`: day `d` at `hh:mm` when the digits fit a clock, and
      a `ValueError` otherwise. */
  lemma SlashMinuteOfDigits(d: Date, hh: string, mm: string)
    requires InRange(d)
    requires AllDigits(hh) && AllDigits(mm) && |hh| > 0 && |mm| > 0
    ensures Strptime(SlashMinuteFormat, SlashDate(d) + " " + hh + ":" + mm)
         == if ClockFits(hh, mm) then Some(DateTime(d, Value(hh), Value(mm), 0)) else None
  {
    var t := Midnight(d);
    var fmt := SlashDateFormat + [Blank];
    var u := hh + ":" + mm;
    var s := SlashDate(d) + " " + hh + ":" + mm;
    assert SlashMinuteFormat == fmt + ClockFormat;
    SlashMinuteSeparated();
    SlashDateSpace(d);
    assert s == Strftime(fmt, t) + u;
    assert u[0] == hh[0];
    MatchPrinted(fmt, ClockFormat, t, u, Defaults);
    FillSlashDate(d);
    MatchClock(hh, mm, Parts(d.year, d.month, d.day, 0, 0, 0));
  }

  lemma SlashDateSpace(d: Date)
    requires InRange(d)
    ensures Strftime(SlashDateFormat + [Blank], Midnight(d)) == SlashDate(d) + " "
  {
    StrftimeAppend(SlashDateFormat, [Blank], Midnight(d));
    assert Strftime([Blank], Midnight(d)) == " ";
  }

  /** strftime's `%z` for the fixed Asia/Taipei offset of +08:00. */
  const OffsetText: string := "+0800"

  /** `t.strftime("%Y%m%d%H%M%S %z")`, the XMLTV time stamp the `tbc.py` writer emits. */
  function XmltvStamp(t: DateTime): string
    requires Printable(t)
  {
    Strftime(StampFormat, t) + " " + OffsetText
  }

  /** `t.strftime("%Y%m%d%H%M%S %z").replace(" ", "")`, the stamp the `tbc_epg.py`
      writer emits. */
  function CompactStamp(t: DateTime): string
    requires Printable(t)
  {
    Remove(XmltvStamp(t), ' ')
  }

  /** The six fields of `t`, each zero-padded to its width, one after another. */
  function StampText(t: DateTime): string
    requires Printable(t)
  {
    assert Pow10(2) == 100 && Pow10(4) == 10000;
    Padded(t.date.year, 4) + Padded(t.date.month, 2) + Padded(t.date.day, 2)
    + Padded(t.hour, 2) + Padded(t.minute, 2) + Padded(t.second, 2)
  }

  /** `%Y%m%d%H%M%S` prints the six padded fields. */
  lemma StampIsText(t: DateTime)
    requires Printable(t)
    ensures Strftime(StampFormat, t) == StampText(t)
  {
    var s := [Num(Second)];
    var i := [Num(Minute)] + s;
    var h := [Num(Hour)] + i;
    var d := [Num(Day)] + h;
    var m := [Num(Month)] + d;
    assert StampFormat == [Num(Year)] + m;
    StrftimeCons(Num(Second), [], t);
    StrftimeCons(Num(Minute), s, t);
    StrftimeCons(Num(Hour), i, t);
    StrftimeCons(Num(Day), h, t);
    StrftimeCons(Num(Month), d, t);
    StrftimeCons(Num(Year), m, t);
  }

  lemma StrftimeCons(p: Piece, rest: seq<Piece>, t: DateTime)
    requires Printable(t)
    ensures Strftime([p] + rest, t) == Render(p, t) + Strftime(rest, t)
  {
    assert ([p] + rest)[1..] == rest;
  }

  /** The stamp digits are fourteen digits whose groups hold the six fields. */
  lemma StampTextDigits(t: DateTime)
    requires Printable(t)
    ensures var s := StampText(t);
      && |s| == 14 && AllDigits(s)
      && Value(s[..4]) == t.date.year && Value(s[4..6]) == t.date.month
      && Value(s[6..8]) == t.date.day && Value(s[8..10]) == t.hour
      && Value(s[10..12]) == t.minute && Value(s[12..14]) == t.second
  {
    assert Pow10(2) == 100 && Pow10(4) == 10000;
    PaddedValue(t.date.year, 4);
    PaddedValue(t.date.month, 2);
    PaddedValue(t.date.day, 2);
    PaddedValue(t.hour, 2);
    PaddedValue(t.minute, 2);
    PaddedValue(t.second, 2);
    SixGroups(Padded(t.date.year, 4), Padded(t.date.month, 2), Padded(t.date.day, 2),
              Padded(t.hour, 2), Padded(t.minute, 2), Padded(t.second, 2));
  }

  /** Four digits followed by five pairs of digits: fourteen digits whose groups sit
      at the fixed offsets. */
  lemma SixGroups(y: string, mo: string, da: string, h: string, mi: string, se: string)
    requires |y| == 4 && |mo| == 2 && |da| == 2 && |h| == 2 && |mi| == 2 && |se| == 2
    requires AllDigits(y) && AllDigits(mo) && AllDigits(da) && AllDigits(h) && AllDigits(mi) && AllDigits(se)
    ensures var s := y + mo + da + h + mi + se;
      && |s| == 14 && AllDigits(s)
      && s[..4] == y && s[4..6] == mo && s[6..8] == da && s[8..10] == h && s[10..12] == mi && s[12..14] == se
  {
    var s := y + mo + da + h + mi + se;
    DigitsConcat(y, mo);
    DigitsConcat(y + mo, da);
    DigitsConcat(y + mo + da, h);
    DigitsConcat(y + mo + da + h, mi);
    DigitsConcat(y + mo + da + h + mi, se);
    assert s[..4] == y;
    assert s[4..6] == mo;
    assert s[6..8] == da;
    assert s[8..10] == h;
    assert s[10..12] == mi;
    assert s[12..14] == se;
  }

  /** The stamp digits hold no space. */
  lemma StampNoSpace(t: DateTime)
    requires Printable(t)
    ensures |Strftime(StampFormat, t)| == 14 && ' ' !in Strftime(StampFormat, t)
  {
    StampIsText(t);
    StampTextDigits(t);
    DigitsNoSpace(Strftime(StampFormat, t));
  }

  /** The compact stamp is the spaced one without its space. */
  lemma CompactStampShape(t: DateTime)
    requires Printable(t)
    ensures CompactStamp(t) == Strftime(StampFormat, t) + OffsetText
    ensures |XmltvStamp(t)| == 20 && |CompactStamp(t)| == 19
  {
    StampNoSpace(t);
    RemoveSpaced(Strftime(StampFormat, t));
  }

  lemma RemoveSpaced(s: string)
    requires ' ' !in s
    ensures Remove(s + " " + OffsetText, ' ') == s + OffsetText
  {
    RemoveAppend(s + " ", OffsetText, ' ');
    RemoveTrailingSpace(s);
    RemoveAbsent(OffsetText, ' ');
  }

  lemma RemoveTrailingSpace(s: string)
    requires ' ' !in s
    ensures Remove(s + " ", ' ') == s
  {
    RemoveAppend(s, " ", ' ');
    RemoveAbsent(s, ' ');
  }

  /** Reads an XMLTV time stamp in either shape the writers emit: fourteen digits
      `YYYYMMDDHHMMSS`, then `+0800` with or without one space before it. */
  function ReadStamp(s: string): (r: Option<DateTime>)
    ensures r.Some? ==> Printable(r.value)
  {
    if |s| < 14 || !AllDigits(s[..14]) then None
    else if s[14..] != " " + OffsetText && s[14..] != OffsetText then None
    else
      var d := s[..14];
      Build(Parts(Value(d[..4]), Value(d[4..6]), Value(d[6..8]),
                  Value(d[8..10]), Value(d[10..12]), Value(d[12..14])))
  }

  /** A stamp is read by the values of its six digit groups. */
  lemma ReadStampOf(d: string, z: string)
    requires |d| == 14 && AllDigits(d)
    requires z == " " + OffsetText || z == OffsetText
    ensures ReadStamp(d + z) == Build(Parts(Value(d[..4]), Value(d[4..6]), Value(d[6..8]),
                                            Value(d[8..10]), Value(d[10..12]), Value(d[12..14])))
  {
    assert (d + z)[..14] == d;
    assert (d + z)[14..] == z;
  }

  /** The digits of a stamp, whichever offset suffix follows them, read back as `t`. */
  lemma ReadStampDigits(t: DateTime, z: string)
    requires Printable(t)
    requires z == " " + OffsetText || z == OffsetText
    ensures ReadStamp(Strftime(StampFormat, t) + z) == Some(t)
  {
    StampIsText(t);
    StampTextDigits(t);
    ReadStampOf(StampText(t), z);
    BuildFields(t);
  }

  /** The constructor accepts the fields of a printable date-time. */
  lemma BuildFields(t: DateTime)
    requires Printable(t)
    ensures Build(Parts(t.date.year, t.date.month, t.date.day, t.hour, t.minute, t.second)) == Some(t)
  {
  }

  /** Each shape of stamp the writers emit reads back as the date-time it prints. */
  lemma ReadStampRoundTrip(t: DateTime)
    requires Printable(t)
    ensures ReadStamp(XmltvStamp(t)) == Some(t)
    ensures ReadStamp(CompactStamp(t)) == Some(t)
  {
    assert XmltvStamp(t) == Strftime(StampFormat, t) + (" " + OffsetText);
    ReadStampDigits(t, " " + OffsetText);
    CompactStampShape(t);
    ReadStampDigits(t, OffsetText);
  }
}
