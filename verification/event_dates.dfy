/** The event date line, "November 15th ~ 16th, 2025", as `formatEventDate` builds
    it from the month names, days and years of the start and end dates. The same
    code appears twice: in the shared utilities and in the admin events page. */
module EventDates {
  import opened Wrappers
  import opened JsText

  /** `getOrdinalSuffix(day)`. The shortcut `3 < day < 21` agrees with the English
      rule on every day of a month, and on every number up to 110. */
  function OrdinalSuffix(day: nat): (s: string)
    ensures |s| == 2
    ensures day <= 110 ==> s == EnglishSuffix(day)
  {
    if day > 3 && day < 21 then "th"
    else if day % 10 == 1 then "st"
    else if day % 10 == 2 then "nd"
    else if day % 10 == 3 then "rd"
    else "th"
  }

  /** The English ordinal rule: 11, 12 and 13 (and 111, 112, ...) take "th",
      otherwise the last digit decides. */
  function EnglishSuffix(n: nat): string {
    if 11 <= n % 100 <= 13 then "th"
    else if n % 10 == 1 then "st"
    else if n % 10 == 2 then "nd"
    else if n % 10 == 3 then "rd"
    else "th"
  }

  /** The suffix of every day of a month: the teens take "th", and so do the days
      ending in 4 to 9 or 0. */
  lemma SuffixOfDay(day: nat)
    requires 1 <= day <= 31
    ensures 4 <= day <= 20 ==> OrdinalSuffix(day) == "th"
    ensures day == 1 || day == 21 || day == 31 ==> OrdinalSuffix(day) == "st"
    ensures day == 2 || day == 22 ==> OrdinalSuffix(day) == "nd"
    ensures day == 3 || day == 23 ==> OrdinalSuffix(day) == "rd"
    ensures 24 <= day <= 30 ==> OrdinalSuffix(day) == "th"
  {
  }

  /** Beyond the days of a month the shortcut would write "111st". */
  lemma SuffixDivergesAt111()
    ensures OrdinalSuffix(111) == "st" && EnglishSuffix(111) == "th"
  {
  }

  /** A date as the layout sees it. */
  datatype DateParts = DateParts(month: string, day: nat, year: nat)

  /** `formatEventDate`: the year is written once when both dates share it, and the
      end month is then left out. Either way the line opens with the start month and
      day and closes with the end year. */
  function FormatEventDate(start: DateParts, end: DateParts): (r: string)
    ensures var head := start.month + " " + NatToString(start.day) + OrdinalSuffix(start.day);
      |head| <= |r| && r[..|head|] == head
    ensures EndsWith(r, ", " + NatToString(end.year))
  {
    var head := start.month + " " + NatToString(start.day) + OrdinalSuffix(start.day);
    var rest := AfterStartDay(start, end);
    EndsWithAppend(head, rest, ", " + NatToString(end.year));
    assert (head + rest)[..|head|] == head;
    head + rest
  }

  /** What follows the start day: " ~ D2s, Y" within a year, ", Y1 ~ M2 D2s, Y2"
      across years. */
  function AfterStartDay(start: DateParts, end: DateParts): (rest: string)
    ensures EndsWith(rest, ", " + NatToString(end.year))
  {
    var tail := ", " + NatToString(end.year);
    var endDay := NatToString(end.day) + (OrdinalSuffix(end.day) + tail);
    EndsWithAppend(OrdinalSuffix(end.day), tail, tail);
    EndsWithAppend(NatToString(end.day), OrdinalSuffix(end.day) + tail, tail);
    if start.year == end.year then
      EndsWithAppend(" ~ ", endDay, tail);
      " ~ " + endDay
    else
      var m := end.month + (" " + endDay);
      EndsWithAppend(" ", endDay, tail);
      EndsWithAppend(end.month, " " + endDay, tail);
      EndsWithAppend(" ~ ", m, tail);
      EndsWithAppend(NatToString(start.year), " ~ " + m, tail);
      EndsWithAppend(", ", NatToString(start.year) + (" ~ " + m), tail);
      ", " + (NatToString(start.year) + (" ~ " + m))
  }

  /** `t` is the last part of `s`. */
  predicate EndsWith(s: string, t: string) {
    |t| <= |s| && s[|s| - |t|..] == t
  }

  lemma EndsWithAppend(p: string, s: string, t: string)
    requires EndsWith(s, t)
    ensures EndsWith(p + s, t)
  {
    assert (p + s)[|p + s| - |t|..] == s[|s| - |t|..];
  }

  /** What a reader can recover from the line. */
  datatype Layout =
    | SameYear(month: string, startDay: nat, endDay: nat, year: nat)
    | CrossYear(startMonth: string, startDay: nat, startYear: nat, endMonth: string, endDay: nat, endYear: nat)

  /** A numeral followed by its ordinal suffix. */
  function ReadOrdinal(s: string): Option<(nat, string)> {
    match ReadNat(s)
    case None => None
    case Some((n, rest)) =>
      match Expect(OrdinalSuffix(n), rest)
      case None => None
      case Some(after) => Some((n, after))
  }

  /** A numeral that ends the text. */
  function ReadFinalNat(s: string): Option<nat> {
    match ReadNat(s)
    case None => None
    case Some((n, rest)) => if rest == [] then Some(n) else None
  }

  /** "Ds, Y" at the end of the line: a day with its suffix, then the year. */
  function ReadDayYear(s: string): Option<(nat, nat)> {
    match ReadOrdinal(s)
    case None => None
    case Some((d, rest)) =>
      match Expect(", ", rest)
      case None => None
      case Some(after) =>
        match ReadFinalNat(after)
        case None => None
        case Some(y) => Some((d, y))
  }

  /** After "M1 D1s, ": "Y1 ~ M2 D2s, Y2". */
  function ReadCrossYearTail(month: string, d1: nat, s: string): Option<Layout> {
    match ReadNat(s)
    case None => None
    case Some((y1, rest)) =>
      match Expect(" ~ ", rest)
      case None => None
      case Some(after) =>
        match SplitAtFirst(after, ' ')
        case None => None
        case Some((month2, tail)) =>
          match ReadDayYear(tail)
          case None => None
          case Some((d2, y2)) => Some(CrossYear(month, d1, y1, month2, d2, y2))
  }

  /** After "M D1s": " ~ D2s, Y" for one year, ", Y1 ~ M2 D2s, Y2" for two. */
  function ReadAfterStartDay(month: string, d1: nat, s: string): Option<Layout> {
    match Expect(" ~ ", s)
    case Some(tail) =>
      (match ReadDayYear(tail)
       case None => None
       case Some((d2, y)) => Some(SameYear(month, d1, d2, y)))
    case None =>
      match Expect(", ", s)
      case None => None
      case Some(tail) => ReadCrossYearTail(month, d1, tail)
  }

  /** "M D1s ~ D2s, Y" or "M1 D1s, Y1 ~ M2 D2s, Y2". */
  function ParseEventDate(s: string): Option<Layout> {
    match SplitAtFirst(s, ' ')
    case None => None
    case Some((month, rest)) =>
      match ReadOrdinal(rest)
      case None => None
      case Some((d1, tail)) => ReadAfterStartDay(month, d1, tail)
  }

  lemma ReadOrdinalOf(n: nat, rest: string)
    ensures ReadOrdinal(NatToString(n) + (OrdinalSuffix(n) + rest)) == Some((n, rest))
  {
    ReadNatOfNumeral(n, OrdinalSuffix(n) + rest);
    ExpectPrefix(OrdinalSuffix(n), rest);
  }

  lemma ReadDayYearOf(d: nat, y: nat)
    ensures ReadDayYear(NatToString(d) + (OrdinalSuffix(d) + (", " + NatToString(y)))) == Some((d, y))
  {
    ReadOrdinalOf(d, ", " + NatToString(y));
    ExpectPrefix(", ", NatToString(y));
    ReadNatOfNumeral(y, []);
    assert NatToString(y) + [] == NatToString(y);
  }

  lemma SplitAtSpace(month: string, rest: string)
    requires ' ' !in month
    ensures SplitAtFirst(month + (" " + rest), ' ') == Some((month, rest))
  {
    assert month + (" " + rest) == month + [' '] + rest;
    SplitAtFirstOf(month, ' ', rest);
  }

  /** Reading the line back gives the month, both days and the year when the years
      agree (the end month is not in the text), and both full dates otherwise. */
  /** The line as one right-nested concatenation, the shape the reader consumes. */
  lemma FormatNested(start: DateParts, end: DateParts)
    ensures FormatEventDate(start, end)
      == start.month + (" " + (NatToString(start.day) + (OrdinalSuffix(start.day) + AfterStartDay(start, end))))
  {
    var rest := AfterStartDay(start, end);
    assert start.month + " " + NatToString(start.day) + OrdinalSuffix(start.day) + rest
      == start.month + (" " + (NatToString(start.day) + (OrdinalSuffix(start.day) + rest)));
  }

  lemma FormatParseRoundTrip(start: DateParts, end: DateParts)
    requires ' ' !in start.month && ' ' !in end.month
    ensures ParseEventDate(FormatEventDate(start, end)) ==
      if start.year == end.year then Some(SameYear(start.month, start.day, end.day, start.year))
      else Some(CrossYear(start.month, start.day, start.year, end.month, end.day, end.year))
  {
    var tailEnd := NatToString(end.day) + (OrdinalSuffix(end.day) + (", " + NatToString(end.year)));
    ReadDayYearOf(end.day, end.year);
    if start.year == end.year {
      var s2 := " ~ " + tailEnd;
      FormatNested(start, end);
      SplitAtSpace(start.month, NatToString(start.day) + (OrdinalSuffix(start.day) + s2));
      ReadOrdinalOf(start.day, s2);
      ExpectPrefix(" ~ ", tailEnd);
      assert ReadAfterStartDay(start.month, start.day, s2) == Some(SameYear(start.month, start.day, end.day, end.year));
    } else {
      var s5 := end.month + (" " + tailEnd);
      var s3 := NatToString(start.year) + (" ~ " + s5);
      var s2 := ", " + s3;
      FormatNested(start, end);
      SplitAtSpace(start.month, NatToString(start.day) + (OrdinalSuffix(start.day) + s2));
      ReadOrdinalOf(start.day, s2);
      CrossYearTailOf(start.month, start.day, start.year, end.month, end.day, end.year);
      assert Expect(" ~ ", s2).None? by {
        assert s2[0] == ',';
      }
      ExpectPrefix(", ", s3);
    }
  }

  lemma CrossYearTailOf(month: string, d1: nat, y1: nat, month2: string, d2: nat, y2: nat)
    requires ' ' !in month2
    ensures ReadCrossYearTail(month, d1,
      NatToString(y1) + (" ~ " + (month2 + (" " + (NatToString(d2) + (OrdinalSuffix(d2) + (", " + NatToString(y2))))))))
      == Some(CrossYear(month, d1, y1, month2, d2, y2))
  {
    var tailEnd := NatToString(d2) + (OrdinalSuffix(d2) + (", " + NatToString(y2)));
    var s5 := month2 + (" " + tailEnd);
    ReadDayYearOf(d2, y2);
    ReadNatOfNumeral(y1, " ~ " + s5);
    ExpectPrefix(" ~ ", s5);
    SplitAtSpace(month2, tailEnd);
  }

  /** Two lines are equal only when the dates agree in everything the line shows. */
  lemma FormatInjective(a1: DateParts, b1: DateParts, a2: DateParts, b2: DateParts)
    requires ' ' !in a1.month && ' ' !in b1.month && ' ' !in a2.month && ' ' !in b2.month
    requires FormatEventDate(a1, b1) == FormatEventDate(a2, b2)
    ensures a1 == a2 && b1.day == b2.day && b1.year == b2.year
    ensures a1.year != b1.year ==> b1 == b2
  {
    FormatParseRoundTrip(a1, b1);
    FormatParseRoundTrip(a2, b2);
  }

  /** The blank event the admin "Add Event" form starts from. */
  datatype Event = Event(id: string, title: string, description: string, image_url: string,
                         start_date: string, end_date: string)

  function EmptyEvent(): (e: Event)
    ensures e.id == "" && e.title == "" && e.description == "" && e.image_url == ""
    ensures e.start_date == "" && e.end_date == ""
  {
    Event("", "", "", "", "", "")
  }
}
