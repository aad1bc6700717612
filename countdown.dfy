/**
 * The Sehar/Iftar countdown of the dashboard. Instants are integer milliseconds
 * counted from local midnight of the anchor day, so one day is 86,400,000 ms and a
 * clock time h:m on the anchor day is h hours and m minutes after 0.
 */
module Countdown {
  import opened Wrappers
  import opened JsText

  const SecondMs: int := 1_000
  const MinuteMs: int := 60_000
  const HourMs: int := 3_600_000
  const DayMs: int := 86_400_000

  const SeharName: string := "Sehar"
  const IftarName: string := "Iftar"
  const SeharNextDayName: string := "Sehar (Next Day)"

  /** The two `:`-separated fields at the front of a timing such as "05:12 (PST)". */
  function ClockFields(timing: string): seq<string>
  {
    Split(Split(timing, ' ')[0], ':')
  }

  /** A timing whose text before the first space starts with two non-empty digit fields. */
  predicate WellFormedTiming(timing: string)
  {
    var f := ClockFields(timing);
    |f| >= 2 && f[0] != [] && AllDigits(f[0]) && f[1] != [] && AllDigits(f[1])
  }

  datatype Clock = Clock(hour: nat, minute: nat)

  /** The hour and minute `parseInt` reads from the two fields. */
  function ParseClock(timing: string): Clock
    requires WellFormedTiming(timing)
  {
    var f := ClockFields(timing);
    Clock(DigitsToNat(f[0]), DigitsToNat(f[1]))
  }

  /** The anchor day at the given hour and minute, seconds and milliseconds zeroed. */
  function InstantOf(c: Clock): int
  {
    c.hour * HourMs + c.minute * MinuteMs
  }

  /** The event the countdown runs to and the instant it happens. */
  datatype Target = Target(name: string, at: int)

  function NextTarget(sehar: int, iftar: int, now: int): Target
  {
    if now < sehar then Target(SeharName, sehar)
    else if now < iftar then Target(IftarName, iftar)
    else Target(SeharNextDayName, sehar + DayMs)
  }

  /** JavaScript's `a % b`: the remainder has the sign of the dividend. */
  function JsRem(a: int, b: int): int
    requires b > 0
  {
    if a >= 0 then a % b else -((-a) % b)
  }

  // `Math.floor(x / b)` with b > 0 is Dafny's `/` on int, which rounds towards minus infinity then.
  function HoursOf(diff: int): int { diff / HourMs }
  function MinutesOf(diff: int): int { JsRem(diff, HourMs) / MinuteMs }
  function SecondsOf(diff: int): int { JsRem(diff, MinuteMs) / SecondMs }

  /** One field of the display: `n.toString().padStart(2, "0")`. */
  function Field(n: int): string { PadStart2(IntToString(n)) }

  /** The `HH:MM:SS` text shown for a remaining time of `diff` milliseconds. */
  function Render(diff: int): string
  {
    Field(HoursOf(diff)) + ":" + Field(MinutesOf(diff)) + ":" + Field(SecondsOf(diff))
  }

  datatype NextEvent = NextEvent(name: string, time: string, diff: int)

  /** The countdown the dashboard shows for the day's Fajr and Maghrib timings at instant `now`. */
  function ResolveNextEvent(fajr: string, maghrib: string, now: int): (e: NextEvent)
    requires WellFormedTiming(fajr) && WellFormedTiming(maghrib)
    ensures e.name == SeharName || e.name == IftarName || e.name == SeharNextDayName
  {
    var next := NextTarget(InstantOf(ParseClock(fajr)), InstantOf(ParseClock(maghrib)), now);
    var diff := next.at - now;
    NextEvent(next.name, Render(diff), diff)
  }

  /* ---------- properties ---------- */

  /** The three event names are distinct, so the name alone tells which branch was taken. */
  lemma NamesDistinct()
    ensures SeharName != IftarName && SeharName != SeharNextDayName && IftarName != SeharNextDayName
  {
    assert SeharName[0] != IftarName[0];
    assert |SeharName| != |SeharNextDayName|;
    assert |IftarName| != |SeharNextDayName|;
  }

  /**
   * Which event is next: Sehar before today's Fajr, Iftar from Fajr until Maghrib,
   * and otherwise tomorrow's Sehar, taken as today's Fajr plus one day.
   */
  lemma ResolveBranches(fajr: string, maghrib: string, now: int)
    requires WellFormedTiming(fajr) && WellFormedTiming(maghrib)
    ensures var sehar, iftar := InstantOf(ParseClock(fajr)), InstantOf(ParseClock(maghrib));
            var e := ResolveNextEvent(fajr, maghrib, now);
            && (now < sehar ==> e.name == SeharName && e.diff == sehar - now)
            && (sehar <= now < iftar ==> e.name == IftarName && e.diff == iftar - now)
            && (sehar <= now && iftar <= now ==> e.name == SeharNextDayName && e.diff == sehar + DayMs - now)
            && e.time == Render(e.diff)
  {
  }

  /**
   * With clock times of a real day and `now` on the anchor day, the remaining time
   * is strictly positive and at most one day, whichever event is next. It stays
   * positive when `now` is still on the day before the anchor, as happens when the
   * anchor is read just after midnight for an instant taken just before it.
   */
  lemma RemainingPositive(fajr: string, maghrib: string, now: int)
    requires WellFormedTiming(fajr) && WellFormedTiming(maghrib)
    requires ParseClock(fajr).hour < 24 && ParseClock(fajr).minute < 60
    requires ParseClock(maghrib).hour < 24 && ParseClock(maghrib).minute < 60
    requires -DayMs <= now < DayMs
    ensures 0 < ResolveNextEvent(fajr, maghrib, now).diff
    ensures 0 <= now ==> ResolveNextEvent(fajr, maghrib, now).diff <= DayMs
  {
    var sehar, iftar := InstantOf(ParseClock(fajr)), InstantOf(ParseClock(maghrib));
    InstantWithinDay(ParseClock(fajr));
    InstantWithinDay(ParseClock(maghrib));
    var next := NextTarget(sehar, iftar, now);
    assert ResolveNextEvent(fajr, maghrib, now).diff == next.at - now;
  }

  lemma InstantWithinDay(c: Clock)
    requires c.hour < 24 && c.minute < 60
    ensures 0 <= InstantOf(c) < DayMs
  {
  }

  /**
   * The hours, minutes and seconds taken from a non-negative difference: minutes and
   * seconds lie in 0..59 and together they are the whole seconds of the difference.
   */
  lemma DecompositionRoundTrip(diff: int)
    requires diff >= 0
    ensures HoursOf(diff) >= 0
    ensures 0 <= MinutesOf(diff) < 60 && 0 <= SecondsOf(diff) < 60
    ensures HoursOf(diff) * 3600 + MinutesOf(diff) * 60 + SecondsOf(diff) == diff / SecondMs
  {
    var h, rh := diff / HourMs, diff % HourMs;
    var m, rm := rh / MinuteMs, rh % MinuteMs;
    var s, rs := rm / SecondMs, rm % SecondMs;
    assert diff == h * HourMs + rh;
    assert rh == m * MinuteMs + rm;
    assert rm == s * SecondMs + rs;
    assert 0 <= m < 60;
    assert 0 <= s < 60;
    assert diff == (h * 3600 + m * 60 + s) * SecondMs + rs;
    assert diff % MinuteMs == rm by {
      assert diff == (h * 60 + m) * MinuteMs + rm;
    }
    assert diff / SecondMs == h * 3600 + m * 60 + s;
  }

  /** A field of the display is at least two digits and reads back as the number it shows. */
  lemma FieldDigits(n: nat)
    ensures Field(n) == PadStart2(NatToString(n))
    ensures |Field(n)| >= 2 && AllDigits(Field(n)) && DigitsToNat(Field(n)) == n
    ensures ':' !in Field(n) && ' ' !in Field(n)
  {
    PadStart2Digits(NatToString(n));
    var f := Field(n);
    forall k | 0 <= k < |f| ensures f[k] != ':' && f[k] != ' ' {
      assert IsDigit(f[k]);
    }
  }

  /**
   * For a non-negative difference the display is three `:`-separated fields of at
   * least two digits each, and reading them back gives the whole seconds remaining.
   */
  lemma RenderRoundTrip(diff: int)
    requires diff >= 0
    ensures var parts := Split(Render(diff), ':');
            && |parts| == 3
            && (forall k :: 0 <= k < 3 ==> |parts[k]| >= 2 && AllDigits(parts[k]))
            && DigitsToNat(parts[0]) == HoursOf(diff)
            && DigitsToNat(parts[1]) == MinutesOf(diff)
            && DigitsToNat(parts[2]) == SecondsOf(diff)
            && DigitsToNat(parts[0]) * 3600 + DigitsToNat(parts[1]) * 60 + DigitsToNat(parts[2]) == diff / SecondMs
  {
    DecompositionRoundTrip(diff);
    var h, m, s := HoursOf(diff), MinutesOf(diff), SecondsOf(diff);
    FieldDigits(h);
    FieldDigits(m);
    FieldDigits(s);
    RenderSplits(diff);
    var parts := Split(Render(diff), ':');
    assert parts[0] == Field(h) && parts[1] == Field(m) && parts[2] == Field(s);
    forall k | 0 <= k < 3 ensures |parts[k]| >= 2 && AllDigits(parts[k]) {
      var n := if k == 0 then h else if k == 1 then m else s;
      assert parts[k] == Field(n);
    }
    assert DigitsToNat(parts[0]) == h && DigitsToNat(parts[1]) == m && DigitsToNat(parts[2]) == s;
  }

  /** The display splits at its two colons into the three fields. */
  lemma RenderSplits(diff: int)
    requires diff >= 0
    ensures Split(Render(diff), ':') == [Field(HoursOf(diff)), Field(MinutesOf(diff)), Field(SecondsOf(diff))]
  {
    DecompositionRoundTrip(diff);
    var fields := [Field(HoursOf(diff)), Field(MinutesOf(diff)), Field(SecondsOf(diff))];
    FieldDigits(HoursOf(diff));
    FieldDigits(MinutesOf(diff));
    FieldDigits(SecondsOf(diff));
    Join3(fields[0], fields[1], fields[2], ':');
    SplitJoin(fields, ':');
  }

  /**
   * A timing in the provider's "HH:MM (zone)" shape parses to the hour and minute
   * written in it; the annotation after the space is never looked at.
   */
  lemma TimingRoundTrip(c: Clock, annotation: string)
    ensures var timing := Field(c.hour) + ":" + Field(c.minute) + " " + annotation;
            WellFormedTiming(timing) && ParseClock(timing) == c
  {
    FieldDigits(c.hour);
    FieldDigits(c.minute);
    var fields := [Field(c.hour), Field(c.minute)];
    var clock := Field(c.hour) + ":" + Field(c.minute);
    assert ' ' !in clock;
    SplitFirst(clock, ' ', annotation);
    Join2(Field(c.hour), Field(c.minute), ':');
    SplitJoin(fields, ':');
    assert ClockFields(clock + " " + annotation) == fields;
  }

  /* ---------- the scenarios for Fajr "05:12 (PST)" and Maghrib "18:45 (PST)" ---------- */

  /** The display field of a one-digit number is a zero followed by the digit. */
  lemma FieldOneDigit(n: nat)
    requires n < 10
    ensures Field(n) == ['0', DigitChar(n)]
  {
    assert IntToString(n) == [DigitChar(n)];
  }

  /** The display field of a two-digit number is its two digits. */
  lemma FieldTwoDigits(n: nat)
    requires 10 <= n < 100
    ensures Field(n) == [DigitChar(n / 10), DigitChar(n % 10)]
  {
    assert NatToString(n / 10) == [DigitChar(n / 10)];
  }

  const ExampleFajrTiming: string := "05:12 (PST)"
  const ExampleMaghribTiming: string := "18:45 (PST)"

  lemma ExampleFajr()
    ensures WellFormedTiming(ExampleFajrTiming) && ParseClock(ExampleFajrTiming) == Clock(5, 12)
  {
    FieldOneDigit(5);
    FieldTwoDigits(12);
    assert Field(5) + ":" + Field(12) + " " + "(PST)" == "05:12 (PST)";
    TimingRoundTrip(Clock(5, 12), "(PST)");
  }

  lemma ExampleMaghrib()
    ensures WellFormedTiming(ExampleMaghribTiming) && ParseClock(ExampleMaghribTiming) == Clock(18, 45)
  {
    FieldTwoDigits(18);
    FieldTwoDigits(45);
    assert Field(18) + ":" + Field(45) + " " + "(PST)" == "18:45 (PST)";
    TimingRoundTrip(Clock(18, 45), "(PST)");
  }

  /** The countdown depends on the timings only through the clock times parsed from them. */
  lemma ResolveFromClocks(fajr: string, maghrib: string, now: int, sehar: Clock, iftar: Clock)
    requires WellFormedTiming(fajr) && ParseClock(fajr) == sehar
    requires WellFormedTiming(maghrib) && ParseClock(maghrib) == iftar
    ensures var next := NextTarget(InstantOf(sehar), InstantOf(iftar), now);
            ResolveNextEvent(fajr, maghrib, now) == NextEvent(next.name, Render(next.at - now), next.at - now)
  {
  }

  /** The displays for 01:12:00, 08:45:00 and 09:12:00 remaining. */
  lemma ExampleRenders()
    ensures Render(1 * HourMs + 12 * MinuteMs) == "01:12:00"
    ensures Render(8 * HourMs + 45 * MinuteMs) == "08:45:00"
    ensures Render(9 * HourMs + 12 * MinuteMs) == "09:12:00"
    ensures Render(12 * HourMs + 45 * MinuteMs) == "12:45:00"
  {
    FieldOneDigit(0);
    FieldOneDigit(1);
    FieldOneDigit(8);
    FieldOneDigit(9);
    FieldTwoDigits(12);
    FieldTwoDigits(45);
    assert HoursOf(1 * HourMs + 12 * MinuteMs) == 1 && MinutesOf(1 * HourMs + 12 * MinuteMs) == 12;
    assert HoursOf(8 * HourMs + 45 * MinuteMs) == 8 && MinutesOf(8 * HourMs + 45 * MinuteMs) == 45;
    assert HoursOf(9 * HourMs + 12 * MinuteMs) == 9 && MinutesOf(9 * HourMs + 12 * MinuteMs) == 12;
    assert HoursOf(12 * HourMs + 45 * MinuteMs) == 12 && MinutesOf(12 * HourMs + 45 * MinuteMs) == 45;
  }

  /** At 04:00 the next event is Sehar, 01:12:00 away. */
  lemma ExampleBeforeSehar()
    ensures WellFormedTiming(ExampleFajrTiming) && WellFormedTiming(ExampleMaghribTiming)
    ensures ResolveNextEvent(ExampleFajrTiming, ExampleMaghribTiming, 4 * HourMs)
         == NextEvent(SeharName, "01:12:00", 1 * HourMs + 12 * MinuteMs)
  {
    ExampleFajr();
    ExampleMaghrib();
    ExampleRenders();
    ResolveFromClocks(ExampleFajrTiming, ExampleMaghribTiming, 4 * HourMs, Clock(5, 12), Clock(18, 45));
  }

  /** At 10:00 the next event is Iftar, 08:45:00 away. */
  lemma ExampleBeforeIftar()
    ensures WellFormedTiming(ExampleFajrTiming) && WellFormedTiming(ExampleMaghribTiming)
    ensures ResolveNextEvent(ExampleFajrTiming, ExampleMaghribTiming, 10 * HourMs)
         == NextEvent(IftarName, "08:45:00", 8 * HourMs + 45 * MinuteMs)
  {
    ExampleFajr();
    ExampleMaghrib();
    ExampleRenders();
    ResolveFromClocks(ExampleFajrTiming, ExampleMaghribTiming, 10 * HourMs, Clock(5, 12), Clock(18, 45));
  }

  /** At 20:00 the next event is the following day's Sehar, 09:12:00 away. */
  lemma ExampleAfterIftar()
    ensures WellFormedTiming(ExampleFajrTiming) && WellFormedTiming(ExampleMaghribTiming)
    ensures ResolveNextEvent(ExampleFajrTiming, ExampleMaghribTiming, 20 * HourMs)
         == NextEvent(SeharNextDayName, "09:12:00", 9 * HourMs + 12 * MinuteMs)
  {
    ExampleFajr();
    ExampleMaghrib();
    ExampleRenders();
    ResolveFromClocks(ExampleFajrTiming, ExampleMaghribTiming, 20 * HourMs, Clock(5, 12), Clock(18, 45));
  }

  /** At 06:00 the next event is Iftar, 12:45:00 away. */
  lemma ExampleNextMorning()
    ensures WellFormedTiming(ExampleFajrTiming) && WellFormedTiming(ExampleMaghribTiming)
    ensures ResolveNextEvent(ExampleFajrTiming, ExampleMaghribTiming, 6 * HourMs)
         == NextEvent(IftarName, "12:45:00", 12 * HourMs + 45 * MinuteMs)
  {
    ExampleFajr();
    ExampleMaghrib();
    ExampleRenders();
    ResolveFromClocks(ExampleFajrTiming, ExampleMaghribTiming, 6 * HourMs, Clock(5, 12), Clock(18, 45));
  }

  /* ---------- the dashboard component's state ---------- */

  /** The two timings of the day the countdown reads. */
  datatype DailyTimings = DailyTimings(fajr: string, maghrib: string)

  predicate UsableTimings(t: DailyTimings)
  {
    WellFormedTiming(t.fajr) && WellFormedTiming(t.maghrib)
  }

  /**
   * The dashboard's countdown state: the current instant, the timings last
   * received (none before the first response or after a failed one) and the
   * countdown derived from them (none until timings have arrived).
   */
  class Dashboard {
    var now: int
    var data: Option<DailyTimings>
    var nextEvent: Option<NextEvent>

    ghost predicate Valid()
      reads this
    {
      data.Some? ==> UsableTimings(data.value)
    }

    /** The component mounts at instant `clock` with no data and no countdown. */
    constructor (clock: int)
      ensures Valid()
      ensures now == clock && data == None && nextEvent == None
    {
      now := clock;
      data := None;
      nextEvent := None;
    }

    /** The once-per-second timer: `now` becomes the clock's reading; nothing else changes. */
    method Tick(clock: int)
      requires Valid()
      modifies this
      ensures Valid()
      ensures now == clock && data == old(data) && nextEvent == old(nextEvent)
    {
      now := clock;
    }

    /** A timings response arrives (`None` when the fetch failed) and replaces the data. */
    method ReceiveTimings(response: Option<DailyTimings>)
      requires Valid()
      requires response.Some? ==> UsableTimings(response.value)
      modifies this
      ensures Valid()
      ensures data == response && now == old(now) && nextEvent == old(nextEvent)
    {
      data := response;
    }

    /**
     * The recompute that follows each change of `now` or `data`. `today` is the clock
     * reading the recompute takes for itself, and its day is the anchor the timings
     * are placed on. Without data the countdown is left as it was; otherwise it is
     * resolved from the day's Fajr and Maghrib at `now` measured from that anchor.
     * On a real day the countdown is positive and at most a day when `now` is on the
     * anchor day, and still positive when `now` was read just before its midnight.
     */
    method Recompute(today: int)
      requires Valid()
      modifies this
      ensures Valid()
      ensures now == old(now) && data == old(data)
      ensures data.None? ==> nextEvent == old(nextEvent)
      ensures data.Some? ==>
                nextEvent == Some(ResolveNextEvent(data.value.fajr, data.value.maghrib, now - AnchorOf(today)))
      ensures data.Some? && RealDay(data.value) && DayOf(now) == DayOf(today) ==>
                0 < nextEvent.value.diff <= DayMs
      ensures data.Some? && RealDay(data.value) && DayOf(now) + 1 == DayOf(today) ==>
                0 < nextEvent.value.diff
    {
      if data.None? {
        return;
      }
      var timings := data.value;
      var offset := now - AnchorOf(today);
      var e := ResolveNextEvent(timings.fajr, timings.maghrib, offset);
      if RealDay(timings) && (DayOf(now) == DayOf(today) || DayOf(now) + 1 == DayOf(today)) {
        AnchorOffset(now, today);
        RemainingPositive(timings.fajr, timings.maghrib, offset);
      }
      nextEvent := Some(e);
    }
  }

  /** The number of the day an instant falls on, counted from the anchor day as day 0. */
  function DayOf(t: int): int { t / DayMs }

  /** The midnight that starts the day of `t`. */
  function AnchorOf(t: int): int { DayOf(t) * 86_400_000 }

  /**
   * An instant measured from the midnight of its own day lies within that day, and one
   * measured from the next day's midnight lies within the day before it.
   */
  lemma AnchorOffset(now: int, today: int)
    requires DayOf(now) == DayOf(today) || DayOf(now) + 1 == DayOf(today)
    ensures -DayMs <= now - AnchorOf(today) < DayMs
    ensures DayOf(now) == DayOf(today) ==> 0 <= now - AnchorOf(today)
  {
    assert now == DayOf(now) * 86_400_000 + now % DayMs;
  }

  /** The two countdowns of `OvernightScenario`, each measured from its own day's midnight. */
  lemma OvernightResolves(timings: DailyTimings)
    requires UsableTimings(timings)
    requires ParseClock(timings.fajr) == Clock(5, 12) && ParseClock(timings.maghrib) == Clock(18, 45)
    ensures ResolveNextEvent(timings.fajr, timings.maghrib, 20 * HourMs - AnchorOf(20 * HourMs))
         == NextEvent(SeharNextDayName, "09:12:00", 9 * HourMs + 12 * MinuteMs)
    ensures ResolveNextEvent(timings.fajr, timings.maghrib, DayMs + 6 * HourMs - AnchorOf(DayMs + 6 * HourMs))
         == NextEvent(IftarName, "12:45:00", 12 * HourMs + 45 * MinuteMs)
  {
    assert 20 * HourMs - AnchorOf(20 * HourMs) == 20 * HourMs;
    assert DayMs + 6 * HourMs - AnchorOf(DayMs + 6 * HourMs) == 6 * HourMs;
    ExampleRenders();
    ResolveFromClocks(timings.fajr, timings.maghrib, 20 * HourMs, Clock(5, 12), Clock(18, 45));
    ResolveFromClocks(timings.fajr, timings.maghrib, 6 * HourMs, Clock(5, 12), Clock(18, 45));
  }

  /**
   * A page left open overnight, for timings that read 05:12 and 18:45 (such as
   * `ExampleFajrTiming` and `ExampleMaghribTiming`): at 20:00 it counts down to the
   * next day's Sehar, and after midnight, at 06:00, to that day's Iftar.
   */
  method OvernightScenario(timings: DailyTimings) returns (evening: Option<NextEvent>, morning: Option<NextEvent>)
    requires UsableTimings(timings)
    requires ParseClock(timings.fajr) == Clock(5, 12) && ParseClock(timings.maghrib) == Clock(18, 45)
    ensures evening == Some(NextEvent(SeharNextDayName, "09:12:00", 9 * HourMs + 12 * MinuteMs))
    ensures morning == Some(NextEvent(IftarName, "12:45:00", 12 * HourMs + 45 * MinuteMs))
  {
    OvernightResolves(timings);
    var d := new Dashboard(20 * HourMs);
    d.ReceiveTimings(Some(timings));
    d.Recompute(20 * HourMs);
    evening := d.nextEvent;
    d.Tick(DayMs + 6 * HourMs);
    d.Recompute(DayMs + 6 * HourMs);
    morning := d.nextEvent;
  }

  /** Both clock times lie within a day: hour 0..23, minute 0..59. */
  predicate RealDay(t: DailyTimings)
    requires UsableTimings(t)
  {
    ParseClock(t.fajr).hour < 24 && ParseClock(t.fajr).minute < 60 &&
    ParseClock(t.maghrib).hour < 24 && ParseClock(t.maghrib).minute < 60
  }
}
