/**
 * The hour-window partitioner of `ApiHH.__get_parsed_rows`: 25 hour markers and
 * 25 day markers paired off into 24 one-hour query windows, and the date
 * strings a window puts into a request.
 */
module Partitioner {
  import opened Decimal

  /** One query window: the `(hour_from, hour_to, day1, day2)` arguments of `__get__rows_for_day`. */
  datatype Window = Window(hourFrom: string, hourTo: string, day1: string, day2: string)

  /** The year and month are fixed in the date template, not taken from the clock. */
  const DatePrefix: string := "2022-12-"
  const TimeSuffix: string := ":00:00"

  /** The hour markers `"00"`, `"01"`, ..., `"23"`, then `"00"` again. */
  function HourMarkers(): (hs: seq<string>)
    ensures |hs| == 25
    ensures forall i :: 0 <= i < 25 ==> |hs[i]| == 2 && Denotes(hs[i], i % 24)
  {
    var hs := seq(24, x requires 0 <= x < 24 => PadTwo(x)) + ["00"];
    assert Denotes("0", 0) && "00"[..1] == "0";
    assert forall i :: 0 <= i < 24 ==> hs[i] == PadTwo(i);
    hs
  }

  /** 24 copies of yesterday's day of the month, then today's, each zero-padded. */
  function DayMarkers(startDay: nat, endDay: nat): (ds: seq<string>)
    ensures |ds| == 25
    ensures forall i :: 0 <= i < 25 ==> Denotes(ds[i], if i < 24 then startDay else endDay)
    ensures forall i :: 0 <= i < 24 ==> ds[i] == ds[0]
    ensures 1 <= startDay <= 31 && 1 <= endDay <= 31 ==> forall i :: 0 <= i < 25 ==> |ds[i]| == 2
  {
    seq(24, _ => PadTwo(startDay)) + [PadTwo(endDay)]
  }

  /**
   * The windows the loop `for i in range(len(hours) - 1)` visits, window i
   * running from marker i to marker i + 1: exactly 24 of them, each one
   * starting where the previous one ends, from hour "00" round to hour "00".
   */
  function Windows(startDay: nat, endDay: nat): (ws: seq<Window>)
    ensures |ws| == 24
    ensures forall i :: 0 <= i < 23 ==> ws[i].hourTo == ws[i + 1].hourFrom && ws[i].day2 == ws[i + 1].day1
    ensures ws[0].hourFrom == "00" && ws[23].hourTo == "00"
  {
    var hours := HourMarkers();
    var days := DayMarkers(startDay, endDay);
    seq(|hours| - 1, i requires 0 <= i < |hours| - 1 => Window(hours[i], hours[i + 1], days[i], days[i + 1]))
  }

  /** Window i pairs hour marker i with i + 1 and day marker i with i + 1. */
  lemma WindowAt(startDay: nat, endDay: nat, i: nat)
    requires i < 24
    ensures Windows(startDay, endDay)[i] ==
      Window(HourMarkers()[i], HourMarkers()[i + 1], DayMarkers(startDay, endDay)[i], DayMarkers(startDay, endDay)[i + 1])
  {
  }

  /** Window i spans hour i to hour i + 1, wrapping to "00" after "23"; every hour is two digits. */
  lemma WindowHours(startDay: nat, endDay: nat, i: nat)
    requires i < 24
    ensures var w := Windows(startDay, endDay)[i];
      |w.hourFrom| == 2 && |w.hourTo| == 2 && Denotes(w.hourFrom, i) && Denotes(w.hourTo, (i + 1) % 24)
  {
  }

  /**
   * Every window starts on `startDay`; every window but the last also ends on
   * it, and the last ends on `endDay`. For real days of the month every day
   * string is two digits.
   */
  lemma WindowDays(startDay: nat, endDay: nat, i: nat)
    requires i < 24
    ensures var w := Windows(startDay, endDay)[i];
      Denotes(w.day1, startDay) && Denotes(w.day2, if i == 23 then endDay else startDay) &&
      (i < 23 ==> w.day2 == w.day1) &&
      (1 <= startDay <= 31 && 1 <= endDay <= 31 ==> |w.day1| == 2 && |w.day2| == 2)
  {
  }

  /** The template `2022-12-{day}T{hour}:00:00` of `date_from` and `date_to`. */
  function Stamp(day: string, hour: string): (t: string)
    ensures |t| == |DatePrefix| + |day| + 1 + |hour| + |TimeSuffix|
    ensures t[..8] == DatePrefix && t[|t| - 6..] == TimeSuffix
    ensures t[8 + |day|] == 'T'
    ensures |day| == 2 && |hour| == 2 ==> |t| == 19 && StampFields(t) == (day, hour)
  {
    var t := DatePrefix + day + "T" + hour + TimeSuffix;
    assert t == (DatePrefix + day + "T" + hour) + TimeSuffix;
    assert |day| == 2 && |hour| == 2 ==> t[8..10] == day && t[11..13] == hour;
    t
  }

  function DateFrom(w: Window): string {
    Stamp(w.day1, w.hourFrom)
  }

  function DateTo(w: Window): string {
    Stamp(w.day2, w.hourTo)
  }

  /** Reads the day and the hour back out of a stamp built from two-character fields. */
  function StampFields(t: string): (string, string)
    requires |t| == 19
  {
    (t[8..10], t[11..13])
  }

  /** Both date strings of every window carry the fixed `2022-12-` prefix and the `:00:00` suffix. */
  lemma WindowDateAffixes(startDay: nat, endDay: nat, i: nat)
    requires i < 24
    ensures var w := Windows(startDay, endDay)[i];
      DateFrom(w)[..8] == DatePrefix && DateTo(w)[..8] == DatePrefix &&
      DateFrom(w)[|DateFrom(w)| - 6..] == TimeSuffix && DateTo(w)[|DateTo(w)| - 6..] == TimeSuffix
  {
  }

  /**
   * Each window's `date_to` is the next window's `date_from`; the first window
   * starts at midnight of `startDay` and the last ends at midnight of `endDay`.
   */
  lemma WindowDatesChain(startDay: nat, endDay: nat)
    ensures var ws := Windows(startDay, endDay);
      forall i :: 0 <= i < 23 ==> DateTo(ws[i]) == DateFrom(ws[i + 1])
    ensures DateFrom(Windows(startDay, endDay)[0]) == Stamp(PadTwo(startDay), "00")
    ensures DateTo(Windows(startDay, endDay)[23]) == Stamp(PadTwo(endDay), "00")
  {
    var ws := Windows(startDay, endDay);
    forall i | 0 <= i < 23
      ensures DateTo(ws[i]) == DateFrom(ws[i + 1])
    {
      assert ws[i].hourTo == ws[i + 1].hourFrom && ws[i].day2 == ws[i + 1].day1;
    }
    var days := DayMarkers(startDay, endDay);
    WindowAt(startDay, endDay, 0);
    WindowAt(startDay, endDay, 23);
    assert ws[0].day1 == days[0] && ws[23].day2 == days[24];
  }

  /** For real days of the month no two windows start at the same time. */
  lemma WindowStartsDistinct(startDay: nat, endDay: nat, i: nat, j: nat)
    requires 1 <= startDay <= 31 && 1 <= endDay <= 31
    requires i < j < 24
    ensures DateFrom(Windows(startDay, endDay)[i]) != DateFrom(Windows(startDay, endDay)[j])
  {
    var wi, wj := Windows(startDay, endDay)[i], Windows(startDay, endDay)[j];
    WindowHours(startDay, endDay, i);
    WindowHours(startDay, endDay, j);
    WindowDays(startDay, endDay, i);
    WindowDays(startDay, endDay, j);
    var fi, fj := Stamp(wi.day1, wi.hourFrom), Stamp(wj.day1, wj.hourFrom);
    assert StampFields(fi) == (wi.day1, wi.hourFrom) && StampFields(fj) == (wj.day1, wj.hourFrom);
    assert wi.hourFrom != wj.hourFrom by {
      assert ValueOf(wi.hourFrom) == i && ValueOf(wj.hourFrom) == j;
    }
    assert StampFields(fi) != StampFields(fj);
  }

  /**
   * The month never changes: when yesterday was the 31st and today is the 1st,
   * the last window runs from the 31st back to the 1st of the same month.
   */
  lemma MonthEndWindow()
    ensures Windows(31, 1)[23] == Window("23", "00", "31", "01")
    ensures DateFrom(Windows(31, 1)[23]) == Stamp("31", "23")
    ensures DateTo(Windows(31, 1)[23]) == Stamp("01", "00")
  {
    var hours, days := HourMarkers(), DayMarkers(31, 1);
    assert Windows(31, 1)[23] == Window(hours[23], hours[24], days[23], days[24]);
    assert hours[23] == PadTwo(23) == "23";
    assert days[23] == PadTwo(31) == "31" && days[24] == PadTwo(1) == "01";
  }
}
