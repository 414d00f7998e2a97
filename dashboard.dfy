/** The owner dashboard's data logic: the end time the booking forms store,
    the 12-hour to 24-hour conversion and the 12-hour display, the
    selection toggle, month generation from the weekly template, the
    weekly-template editor, the "upcoming" and "today" booking views and
    the owner's edit of a booking. */
module Dashboard {
  import opened Wrappers
  import opened Text
  import opened Js
  import opened TimeLabels
  import opened Bookings
  import opened Seqs

  // ---------------------------------------------------------------------
  // End time of the edit and new-appointment forms
  // ---------------------------------------------------------------------

  /** The `end_time` both booking forms store: the start hour plus the
      duration, both read with `parseInt`, printed and padded to two digits,
      then `:` and the start's minute field (`00` when it is missing or
      empty). A NaN hour prints as `NaN`; nothing wraps past 23. */
  function EndTime(startTime: string, duration: Value): string {
    var parts := Split(startTime, ':');
    var minute := if |parts| > 1 && parts[1] != "" then parts[1] else "00";
    EndText(ParseInt(parts[0]), ParseInt(ToText(duration)), minute)
  }

  /** The end hour (NaN unless both readings are numbers), padded, then `:` and the minute. */
  function EndText(hour: Number, d: Number, minute: string): string {
    var endHour := if hour.Int? && d.Int? then Int(hour.value + d.value) else NaN;
    PadStart2(NumberText(endHour)) + ":" + minute
  }

  /** On a clock start `HH:MM` or `HH:MM:SS` and a whole-number duration
      the end is the padded sum of hour and duration and the start's minute;
      the hour field reads back as the plain sum, which may exceed 23. */
  lemma EndTimeOfClock(start: string, h: nat, mm: string, rest: string, duration: Value, d: nat)
    requires |mm| == 2 && AllDigits(mm)
    requires rest == "" || rest[0] == ':'
    requires start == Pad2(h) + ":" + mm + rest
    requires duration == Num(Int(d)) || duration == Str(NatText(d))
    ensures EndTime(start, duration) == Pad2(h + d) + ":" + mm
    ensures ParseInt(EndTime(start, duration)) == Int(h + d)
  {
    ClockStartFields(start, h, mm, rest);
    WholeDuration(duration, d);
    EndTimeOfFields(start, duration, h, d, mm);
    PaddedHourReads(h + d, mm);
  }

  /** A whole-number duration, as a number or as its text, reads back under `parseInt`. */
  lemma WholeDuration(duration: Value, d: nat)
    requires duration == Num(Int(d)) || duration == Str(NatText(d))
    ensures ParseInt(ToText(duration)) == Int(d)
  {
    assert ToText(duration) == NatText(d);
    ParseIntNatText(d, "");
    assert NatText(d) + "" == NatText(d);
  }

  /** The hour and minute fields of a clock start. */
  lemma ClockStartFields(start: string, h: nat, mm: string, rest: string)
    requires |mm| == 2 && AllDigits(mm)
    requires rest == "" || rest[0] == ':'
    requires start == Pad2(h) + ":" + mm + rest
    ensures ParseInt(Split(start, ':')[0]) == Int(h)
    ensures |Split(start, ':')| > 1 && Split(start, ':')[1] == mm
  {
    DigitsExclude(Pad2(h), ':');
    DigitsExclude(mm, ':');
    SplitTwoFirst(Pad2(h), ':', mm, rest);
    ParseIntNatText(h, "");
    assert Pad2(h) + "" == Pad2(h);
  }

  /** The end time once the start's hour, the duration and the minute field are read. */
  lemma EndTimeOfFields(start: string, duration: Value, h: nat, d: nat, mm: string)
    requires ParseInt(Split(start, ':')[0]) == Int(h) && ParseInt(ToText(duration)) == Int(d)
    requires |Split(start, ':')| > 1 && Split(start, ':')[1] == mm && mm != ""
    ensures EndTime(start, duration) == Pad2(h + d) + ":" + mm
  {
    assert EndTime(start, duration) == EndText(Int(h), Int(d), mm);
    assert NumberText(Int(h + d)) == NatText(h + d);
  }

  /** The hour field of a padded `HH:mm` reads back under `parseInt`. */
  lemma PaddedHourReads(n: nat, mm: string)
    ensures ParseInt(Pad2(n) + ":" + mm) == Int(n)
  {
    var rest := ":" + mm;
    var s := Pad2(n) + ":" + mm;
    assert s == Pad2(n) + rest;
    assert rest[0] == ':';
    ParseIntNatText(n, rest);
  }

  /** A duration `parseInt` cannot read (missing, empty, a word) makes the end `NaN:` and the minute. */
  lemma EndTimeUnreadableDuration(startTime: string, duration: Value)
    requires ParseInt(ToText(duration)).NaN?
    ensures StartsWith(EndTime(startTime, duration), "NaN:")
  {
    var parts := Split(startTime, ':');
    var minute := if |parts| > 1 && parts[1] != "" then parts[1] else "00";
    EndTimeFields(startTime, duration);
    NaNEndText(ParseInt(parts[0]), minute);
  }

  /** `EndTime` once the start is split and both fields are read. */
  lemma EndTimeFields(startTime: string, duration: Value)
    ensures var parts := Split(startTime, ':');
      EndTime(startTime, duration)
        == EndText(ParseInt(parts[0]), ParseInt(ToText(duration)), if |parts| > 1 && parts[1] != "" then parts[1] else "00")
  {
  }

  /** An unreadable duration prints the end hour as `NaN`. */
  lemma NaNEndText(hour: Number, minute: string)
    ensures StartsWith(EndText(hour, NaN, minute), "NaN:")
  {
    var nan := NumberText(NaN);
    assert PadStart2(nan) == nan;
    var head := nan + ":";
    assert EndText(hour, NaN, minute) == head + minute;
    assert (head + minute)[..|head|] == head;
  }

  // ---------------------------------------------------------------------
  // convertTo24Hr and formatTime
  // ---------------------------------------------------------------------

  /** `convertTo24Hr`: `00:00` for anything that is not a non-empty string
      the loose pattern accepts; otherwise the 24-hour hour and the minute,
      both padded to two digits. */
  function ConvertTo24Hr(v: Value): string {
    if !Truthy(v) || !v.Str? then "00:00"
    else match MatchLoose(v.s)
      case None => "00:00"
      case Some(l) => Pad2(Hour24(l)) + ":" + Pad2(Minute(l))
  }

  /** Non-strings, the empty string and text the pattern refuses all give `00:00`. */
  lemma ConvertTo24HrRejects(v: Value)
    requires !v.Str? || v.s == "" || MatchLoose(v.s).None?
    ensures ConvertTo24Hr(v) == "00:00"
  {
  }

  /** A label the loose pattern reads converts to its 24-hour clock: 12 AM
      is 00, any other PM hour gains 12, and hours above 12 are not refused. */
  lemma ConvertTo24HrOfLabel(l: Label12, colon: bool, ws: string, ap: string)
    requires WellFormed(l) && AllSpace(ws) && Meridiem(ap) == Some(l.pm)
    ensures ConvertTo24Hr(Str(LooseText(l, colon) + ws + ap)) == Pad2(Hour24(l)) + ":" + Pad2(Minute(l))
  {
    MatchLooseComplete(l, colon, ws, ap);
  }

  /** Displaying a converted label with an hour in 1..12 gives back that
      hour, the two-digit minute and the label's own AM or PM. */
  lemma FormatConverted(l: Label12, colon: bool, ws: string, ap: string)
    requires WellFormed(l) && AllSpace(ws) && Meridiem(ap) == Some(l.pm)
    requires 1 <= DigitsValue(l.hourDigits) <= 12
    ensures FormatTime(ConvertTo24Hr(Str(LooseText(l, colon) + ws + ap)))
      == NatText(DigitsValue(l.hourDigits)) + ":" + Pad2(Minute(l)) + (if l.pm then "PM" else "AM")
  {
    ConvertTo24HrOfLabel(l, colon, ws, ap);
    var h := Hour24(l);
    DigitsExclude(Pad2(Minute(l)), ':');
    FormatTimeOfClock(h, Pad2(Minute(l)), "");
    assert Pad2(h) + ":" + Pad2(Minute(l)) + "" == Pad2(h) + ":" + Pad2(Minute(l));
  }

  // ---------------------------------------------------------------------
  // toggleSelected
  // ---------------------------------------------------------------------

  /** `prev.filter((x) => x !== id)`. */
  function Without(ids: seq<int>, id: int): (r: seq<int>)
    ensures forall x :: x in r <==> x in ids && x != id
    ensures multiset(r) == multiset(ids)[id := 0]
    ensures SubsequenceOf(r, ids)
  {
    if ids == [] then []
    else
      assert ids == [ids[0]] + ids[1..];
      if ids[0] == id then Without(ids[1..], id)
      else [ids[0]] + Without(ids[1..], id)
  }

  /** `toggleSelected(id)`: every copy removed when present, appended at the end otherwise. */
  function ToggleSelected(ids: seq<int>, id: int): (r: seq<int>)
    ensures id in r <==> id !in ids
    ensures forall x :: x != id ==> (x in r <==> x in ids)
    ensures id !in ids ==> r == ids + [id]
  {
    if id in ids then Without(ids, id) else ids + [id]
  }

  /** Removing an id that is not there changes nothing. */
  lemma {:induction false} WithoutAbsent(ids: seq<int>, id: int)
    requires id !in ids
    ensures Without(ids, id) == ids
  {
    if ids != [] {
      WithoutAbsent(ids[1..], id);
      assert [ids[0]] + ids[1..] == ids;
    }
  }

  /** Toggling an id that was not selected twice restores the selection. */
  lemma ToggleTwice(ids: seq<int>, id: int)
    requires id !in ids
    ensures ToggleSelected(ToggleSelected(ids, id), id) == ids
  {
    var once := ids + [id];
    assert Without(once, id) == Without(ids, id) by {
      WithoutAppend(ids, id);
    }
    WithoutAbsent(ids, id);
  }

  /** Dropping `id` from a list with `id` appended is dropping it from the list. */
  lemma {:induction false} WithoutAppend(ids: seq<int>, id: int)
    ensures Without(ids + [id], id) == Without(ids, id)
  {
    if ids == [] {
      assert Without([id][1..], id) == [];
    } else {
      assert (ids + [id])[1..] == ids[1..] + [id];
      WithoutAppend(ids[1..], id);
    }
  }

  // ---------------------------------------------------------------------
  // generateMonthAvailability
  // ---------------------------------------------------------------------

  /** One row of `schedule_settings`: the weekly template for a weekday (0 = Sunday). */
  datatype DayTemplate = DayTemplate(dayOfWeek: int, isOpen: bool, startTime: string, endTime: string)

  /** One row inserted into `availability`. */
  datatype SlotRow = SlotRow(date: string, startTime: string, endTime: string)

  /** The position `schedule.find(s => s.day_of_week === dow)` stops at; `|schedule|` when none matches. */
  function FirstFor(schedule: seq<DayTemplate>, dow: int): (i: nat)
    ensures i <= |schedule|
    ensures forall j :: 0 <= j < i ==> schedule[j].dayOfWeek != dow
    ensures i < |schedule| ==> schedule[i].dayOfWeek == dow
  {
    if schedule == [] then 0
    else if schedule[0].dayOfWeek == dow then 0
    else 1 + FirstFor(schedule[1..], dow)
  }

  /** `schedule.find(s => s.day_of_week === dow)`. */
  function TemplateFor(schedule: seq<DayTemplate>, dow: int): Option<DayTemplate> {
    var i := FirstFor(schedule, dow);
    if i < |schedule| then Some(schedule[i]) else None
  }

  /** `new Date(year, month, day).getDay()`, given the weekday of the first of the month. */
  function Weekday(firstWeekday: nat, day: nat): nat
    requires day >= 1
  {
    (firstWeekday + day - 1) % 7
  }

  /** A day of the month gets a slot when its weekday's first template is open. */
  predicate IsOpenDay(schedule: seq<DayTemplate>, firstWeekday: nat, day: nat)
    requires day >= 1
  {
    var t := TemplateFor(schedule, Weekday(firstWeekday, day));
    t.Some? && t.value.isOpen
  }

  /** The open days among 1..n, in ascending order. */
  function OpenDays(schedule: seq<DayTemplate>, firstWeekday: nat, n: nat): (days: seq<nat>)
    ensures forall d :: d in days <==> 1 <= d <= n && IsOpenDay(schedule, firstWeekday, d)
    ensures forall i :: 0 <= i < |days| ==> 1 <= days[i] <= n && IsOpenDay(schedule, firstWeekday, days[i])
    ensures forall i, j :: 0 <= i < j < |days| ==> days[i] < days[j]
  {
    if n == 0 then []
    else
      var before := OpenDays(schedule, firstWeekday, n - 1);
      assert forall i :: 0 <= i < |before| ==> before[i] < n;
      before + (if IsOpenDay(schedule, firstWeekday, n) then [n] else [])
  }

  /** The row pushed for an open day: its ISO date and the template's hours. */
  function SlotFor(schedule: seq<DayTemplate>, firstWeekday: nat, isoDate: nat -> string, day: nat): (r: SlotRow)
    requires day >= 1 && IsOpenDay(schedule, firstWeekday, day)
  {
    var t := TemplateFor(schedule, Weekday(firstWeekday, day)).value;
    SlotRow(isoDate(day), t.startTime, t.endTime)
  }

  /** The `inserts` the month loop builds: one row per open day, in day order. */
  function MonthPlan(schedule: seq<DayTemplate>, firstWeekday: nat, isoDate: nat -> string, n: nat): (plan: seq<SlotRow>)
    ensures var days := OpenDays(schedule, firstWeekday, n);
      |plan| == |days| && forall i :: 0 <= i < |plan| ==> plan[i] == SlotFor(schedule, firstWeekday, isoDate, days[i])
  {
    var days := OpenDays(schedule, firstWeekday, n);
    seq(|days|, i requires 0 <= i < |days| => SlotFor(schedule, firstWeekday, isoDate, days[i]))
  }

  /** The plan for one more day is the plan so far and that day's row if it is open. */
  lemma MonthPlanStep(schedule: seq<DayTemplate>, firstWeekday: nat, isoDate: nat -> string, n: nat)
    requires n >= 1
    ensures MonthPlan(schedule, firstWeekday, isoDate, n)
      == MonthPlan(schedule, firstWeekday, isoDate, n - 1)
         + (if IsOpenDay(schedule, firstWeekday, n) then [SlotFor(schedule, firstWeekday, isoDate, n)] else [])
  {
  }

  /** A closed weekday, and one with no template, never yields a row. */
  lemma MonthPlanSkipsClosed(schedule: seq<DayTemplate>, firstWeekday: nat, isoDate: nat -> string, n: nat, day: nat)
    requires 1 <= day <= n
    ensures day in OpenDays(schedule, firstWeekday, n) <==> IsOpenDay(schedule, firstWeekday, day)
    ensures !IsOpenDay(schedule, firstWeekday, day) <==>
      (TemplateFor(schedule, Weekday(firstWeekday, day)).None?
       || !TemplateFor(schedule, Weekday(firstWeekday, day)).value.isOpen)
  {
  }

  /** The loop over the days of the month that fills `inserts`. */
  method BuildMonthInserts(schedule: seq<DayTemplate>, firstWeekday: nat, daysInMonth: nat, isoDate: nat -> string)
    returns (inserts: seq<SlotRow>)
    ensures inserts == MonthPlan(schedule, firstWeekday, isoDate, daysInMonth)
  {
    inserts := [];
    var day := 1;
    while day <= daysInMonth
      invariant 1 <= day <= daysInMonth + 1
      invariant inserts == MonthPlan(schedule, firstWeekday, isoDate, day - 1)
    {
      MonthPlanStep(schedule, firstWeekday, isoDate, day);
      var dow := (firstWeekday + day - 1) % 7;
      var daySchedule := TemplateFor(schedule, dow);
      if daySchedule.Some? && daySchedule.value.isOpen {
        inserts := inserts + [SlotRow(isoDate(day), daySchedule.value.startTime, daySchedule.value.endTime)];
      }
      day := day + 1;
    }
  }

  /** What the month generation reports. */
  datatype MonthOutcome = ScheduleLoadFailed | NothingToGenerate | InsertFailed | Generated(count: nat)

  /** The outcome for a schedule read (`None` for an error or no data), the
      plan and whether the insert fails. */
  function MonthResult(schedule: Option<seq<DayTemplate>>, plan: seq<SlotRow>, insertFails: bool): (r: MonthOutcome)
    ensures r.Generated? <==> schedule.Some? && plan != [] && !insertFails
    ensures r.Generated? ==> r.count == |plan|
  {
    if schedule.None? then ScheduleLoadFailed
    else if plan == [] then NothingToGenerate
    else if insertFails then InsertFailed
    else Generated(|plan|)
  }

  /** The `availability` table. */
  class AvailabilityTable {
    var slots: seq<SlotRow>

    constructor ()
      ensures slots == []
    {
      slots := [];
    }

    /** `generateMonthAvailability`: the rows are written in one insert, and
        only when the schedule loaded and at least one day is open. */
    method GenerateMonth(schedule: Option<seq<DayTemplate>>, firstWeekday: nat, daysInMonth: nat,
                         isoDate: nat -> string, insertFails: bool)
      returns (outcome: MonthOutcome)
      modifies this
      ensures var plan := if schedule.Some? then MonthPlan(schedule.value, firstWeekday, isoDate, daysInMonth) else [];
        && outcome == MonthResult(schedule, plan, insertFails)
        && slots == old(slots) + (if outcome.Generated? then plan else [])
    {
      if schedule.None? {
        return ScheduleLoadFailed;
      }
      var inserts := BuildMonthInserts(schedule.value, firstWeekday, daysInMonth, isoDate);
      if |inserts| == 0 {
        return NothingToGenerate;
      }
      if insertFails {
        return InsertFailed;
      }
      slots := slots + inserts;
      outcome := Generated(|inserts|);
    }
  }

  // ---------------------------------------------------------------------
  // The weekly-template editor
  // ---------------------------------------------------------------------

  /** One entry of the editor's `scheduleSettings` state: an object the
      handlers change in place. */
  class DaySetting {
    var dayOfWeek: int
    var isOpen: bool
    var startTime: string
    var endTime: string

    constructor (t: DayTemplate)
      ensures Fields() == t
    {
      dayOfWeek, isOpen, startTime, endTime := t.dayOfWeek, t.isOpen, t.startTime, t.endTime;
    }

    function Fields(): DayTemplate
      reads this
    {
      DayTemplate(dayOfWeek, isOpen, startTime, endTime)
    }
  }

  /** What one editor control sets: the open box, the "From" or the "To" time. */
  datatype ScheduleEdit = SetOpen(open: bool) | SetStart(start: string) | SetEnd(end: string)

  /** The template after an edit: only the edited field changes. */
  function Edited(t: DayTemplate, e: ScheduleEdit): (r: DayTemplate)
    ensures r.dayOfWeek == t.dayOfWeek
    ensures r.isOpen == (if e.SetOpen? then e.open else t.isOpen)
    ensures r.startTime == (if e.SetStart? then e.start else t.startTime)
    ensures r.endTime == (if e.SetEnd? then e.end else t.endTime)
  {
    match e
    case SetOpen(b) => t.(isOpen := b)
    case SetStart(s) => t.(startTime := s)
    case SetEnd(s) => t.(endTime := s)
  }

  /** An editor handler: a shallow copy of the list, then the field set on
      the entry at `index`. The copy holds the same entry objects, so the
      entry in the previous list changes too. */
  method EditSchedule(settings: seq<DaySetting>, index: nat, edit: ScheduleEdit) returns (updated: array<DaySetting>)
    requires index < |settings|
    modifies settings[index]
    ensures fresh(updated) && updated[..] == settings
    ensures settings[index].Fields() == Edited(old(settings[index].Fields()), edit)
  {
    updated := new DaySetting[|settings|](i requires 0 <= i < |settings| => settings[i]);
    var entry := updated[index];
    match edit
    case SetOpen(b) => entry.isOpen := b;
    case SetStart(s) => entry.startTime := s;
    case SetEnd(s) => entry.endTime := s;
  }

  // ---------------------------------------------------------------------
  // The upcoming bookings and today's schedule
  // ---------------------------------------------------------------------

  /** `!b.date` and `!b.start_time` fail for a missing value and for "". */
  predicate Present(o: Option<string>) {
    o.Some? && o.value != ""
  }

  /** The time handed to `new Date`: text containing `AM` goes through
      `convertTo24Hr`, any other text is used as it is. */
  function StartForDate(start: string): string {
    if Contains(start, "AM") then ConvertTo24Hr(Str(start)) else start
  }

  /** Five minutes in milliseconds. */
  const Grace: int := 5 * 60 * 1000

  /** The filter callback: a date and a start time, and a start that
      `timestamp` (what `new Date(text).getTime()` gives, `None` for an
      invalid date) places after `now` minus five minutes. */
  predicate IsUpcoming(b: Booking, now: int, timestamp: string -> Option<int>) {
    && Present(b.date) && Present(b.startTime)
    && var ts := timestamp(b.date.value + "T" + StartForDate(b.startTime.value));
       ts.Some? && ts.value > now - Grace
  }

  /** The `upcoming` list `fetchBookings` keeps. */
  function Upcoming(rows: seq<Booking>, now: int, timestamp: string -> Option<int>): (r: seq<Booking>)
    ensures forall b :: b in r <==> b in rows && IsUpcoming(b, now, timestamp)
    ensures forall b: Booking :: IsUpcoming(b, now, timestamp) ==> multiset(r)[b] == multiset(rows)[b]
    ensures SubsequenceOf(r, rows)
  {
    if rows == [] then []
    else
      assert rows == [rows[0]] + rows[1..];
      if IsUpcoming(rows[0], now, timestamp) then [rows[0]] + Upcoming(rows[1..], now, timestamp)
      else Upcoming(rows[1..], now, timestamp)
  }

  /** `fetchBookings`: a failed read leaves the list as it was, a null
      read gives an empty list, otherwise the upcoming rows. */
  function AfterFetchBookings(current: seq<Booking>, fetched: Result<Option<seq<Booking>>, string>,
                              now: int, timestamp: string -> Option<int>): (r: seq<Booking>)
    ensures fetched.Err? ==> r == current
    ensures fetched.Ok? ==> forall b :: b in r <==> fetched.value.Some? && b in fetched.value.value && IsUpcoming(b, now, timestamp)
    ensures fetched.Ok? ==> r == Upcoming(fetched.value.GetOr([]), now, timestamp)
  {
    match fetched
    case Err(_) => current
    case Ok(data) => Upcoming(data.GetOr([]), now, timestamp)
  }

  /** `.filter(b => b.date === today)`. */
  function DatedOn(rows: seq<Booking>, today: string): (r: seq<Booking>)
    ensures forall b :: b in r <==> b in rows && b.date == Some(today)
    ensures multiset(r) <= multiset(rows)
    ensures forall b: Booking :: b.date == Some(today) ==> multiset(r)[b] == multiset(rows)[b]
    ensures SubsequenceOf(r, rows)
  {
    if rows == [] then []
    else
      assert rows == [rows[0]] + rows[1..];
      if rows[0].date == Some(today) then [rows[0]] + DatedOn(rows[1..], today)
      else DatedOn(rows[1..], today)
  }

  /** The sort key: `start_time`. */
  function StartKey(b: Booking): string {
    b.startTime.GetOr("")
  }

  predicate SortedByStart(s: seq<Booking>) {
    forall i, j :: 0 <= i < j < |s| ==> LexLe(StartKey(s[i]), StartKey(s[j]))
  }

  /** One insertion step of a stable sort: `b` goes before the first row that does not start earlier. */
  function InsertByStart(b: Booking, s: seq<Booking>): (r: seq<Booking>)
    requires SortedByStart(s)
    ensures multiset(r) == multiset(s) + multiset{b}
    ensures SortedByStart(r)
  {
    if s == [] || LexLe(StartKey(b), StartKey(s[0])) then
      InsertFirst(b, s);
      [b] + s
    else
      var tail := InsertByStart(b, s[1..]);
      InsertAfter(b, s, tail);
      assert s == [s[0]] + s[1..];
      [s[0]] + tail
  }

  lemma InsertFirst(b: Booking, s: seq<Booking>)
    requires SortedByStart(s)
    requires s == [] || LexLe(StartKey(b), StartKey(s[0]))
    ensures SortedByStart([b] + s)
  {
    var r := [b] + s;
    forall i, j | 0 <= i < j < |r| ensures LexLe(StartKey(r[i]), StartKey(r[j])) {
      if i == 0 && j > 1 {
        LexLeTrans(StartKey(b), StartKey(s[0]), StartKey(s[j - 1]));
      }
    }
  }

  lemma InsertAfter(b: Booking, s: seq<Booking>, tail: seq<Booking>)
    requires s != [] && SortedByStart(s) && !LexLe(StartKey(b), StartKey(s[0]))
    requires multiset(tail) == multiset(s[1..]) + multiset{b} && SortedByStart(tail)
    ensures SortedByStart([s[0]] + tail)
  {
    LexLeTotal(StartKey(b), StartKey(s[0]));
    var r := [s[0]] + tail;
    forall i, j | 0 <= i < j < |r| ensures LexLe(StartKey(r[i]), StartKey(r[j])) {
      if i == 0 {
        var x := r[j];
        assert x in multiset(tail);
        if x != b {
          assert x in multiset(s[1..]);
          var k :| 0 <= k < |s[1..]| && s[1..][k] == x;
          assert s[k + 1] == x;
        }
      }
    }
  }

  /** Insertion sort by start time. */
  function SortByStart(s: seq<Booking>): (r: seq<Booking>)
    ensures multiset(r) == multiset(s)
    ensures SortedByStart(r)
  {
    if s == [] then []
    else
      assert s == [s[0]] + s[1..];
      InsertByStart(s[0], SortByStart(s[1..]))
  }

  /** "Today's Schedule": the bookings dated today, ascending by start
      time. Every such booking has a start time (the comparison would fail
      on a missing one). */
  function TodaysSchedule(bookings: seq<Booking>, today: string): (r: seq<Booking>)
    requires forall b :: b in bookings && b.date == Some(today) ==> b.startTime.Some?
    ensures forall b :: b in r <==> b in bookings && b.date == Some(today)
    ensures multiset(r) <= multiset(bookings)
    ensures multiset(r) == multiset(DatedOn(bookings, today))
    ensures forall b: Booking :: b.date == Some(today) ==> multiset(r)[b] == multiset(bookings)[b]
    ensures SortedByStart(r)
  {
    var dated := DatedOn(bookings, today);
    var r := SortByStart(dated);
    assert forall b :: b in r <==> b in multiset(dated);
    r
  }

  /** The dashboard's list is the upcoming filter's output, which always meets the schedule view's requirement. */
  lemma UpcomingHasStartTimes(rows: seq<Booking>, now: int, timestamp: string -> Option<int>, today: string)
    ensures var up := Upcoming(rows, now, timestamp);
      forall b :: b in up && b.date == Some(today) ==> b.startTime.Some?
  {
  }

  // ---------------------------------------------------------------------
  // The owner's edit of a booking
  // ---------------------------------------------------------------------

  /** The edit form's values on submit. */
  datatype EditForm = EditForm(details: map<string, string>, date: string, startTime: string, duration: Value, paid: bool)

  /** `{ ...formData, end_time }` as an update of the row: the form's
      columns, its `duration` among them, and the end time computed from it. */
  function EditPatch(f: EditForm): Patch {
    OwnerEdit(f.details["duration" := ToText(f.duration)], f.date, f.startTime, EndTime(f.startTime, f.duration), f.paid)
  }

  /** An edited row holds the form's date, start, paid flag and duration,
      and its end time is the one its own start and duration give. */
  lemma EditedRow(b: Booking, f: EditForm)
    ensures var r := Apply(b, EditPatch(f));
      && r.id == b.id && r.confirmed == b.confirmed && r.paid == f.paid
      && r.date == Some(f.date) && r.startTime == Some(f.startTime)
      && "duration" in r.details && r.details["duration"] == ToText(f.duration)
      && r.endTime == Some(EndTime(r.startTime.value, Str(r.details["duration"])))
  {
    var r := Apply(b, EditPatch(f));
    var details := f.details["duration" := ToText(f.duration)];
    assert r.details["duration"] == ToText(f.duration) by {
      assert "duration" in details && details["duration"] == ToText(f.duration);
    }
    EndTimeOfText(f.startTime, f.duration);
  }

  /** The end time depends on the duration only through its text. */
  lemma EndTimeOfText(startTime: string, duration: Value)
    ensures EndTime(startTime, Str(ToText(duration))) == EndTime(startTime, duration)
  {
    assert ToText(Str(ToText(duration))) == ToText(duration);
  }

  /** `handleUpdateBooking`: the edited booking's row is patched unless the update fails. */
  method HandleUpdateBooking(store: BookingStore, id: nat, form: EditForm, updateFails: bool) returns (ok: bool)
    requires store.Valid()
    modifies store
    ensures store.Valid()
    ensures ok == !updateFails
    ensures store.rows == if ok then UpdateWhere(old(store.rows), id, EditPatch(form)) else old(store.rows)
  {
    if updateFails {
      return false;
    }
    store.Update(id, EditPatch(form));
    ok := true;
  }

  /** An owner edit marking a confirmed booking unpaid leaves it confirmed
      and unpaid: "confirmed implies paid" is not kept by the table. */
  lemma EditCanUnpayConfirmed(rows: seq<Booking>, i: nat, form: EditForm)
    requires i < |rows| && rows[i].confirmed && !form.paid
    ensures var after := UpdateWhere(rows, rows[i].id, EditPatch(form));
      after[i].confirmed && !after[i].paid
  {
  }
}
