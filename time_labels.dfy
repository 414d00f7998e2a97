/** Time-of-day labels shared by the payment routes and the dashboard: the
    two 12-hour label patterns, the `HH:MM:SS` text written to the store,
    the hour shift done with a UTC `Date`, and the 12-hour display format. */
module TimeLabels {
  import opened Wrappers
  import opened Text
  import opened Js

  /** What a 12-hour label pattern captures: the hour digits, the minute
      digits when present, and whether the suffix reads PM. */
  datatype Label12 = Label12(hourDigits: string, minuteDigits: Option<string>, pm: bool)

  /** One or two hour digits, and exactly two minute digits when present. */
  predicate WellFormed(l: Label12) {
    && 1 <= |l.hourDigits| <= 2 && AllDigits(l.hourDigits)
    && (l.minuteDigits.Some? ==> |l.minuteDigits.value| == 2 && AllDigits(l.minuteDigits.value))
  }

  /** `(AM|PM)` under the `i` flag: `Some(true)` for PM, `Some(false)` for AM. */
  function Meridiem(s: string): Option<bool> {
    if |s| == 2 && (s[0] == 'A' || s[0] == 'a') && (s[1] == 'M' || s[1] == 'm') then Some(false)
    else if |s| == 2 && (s[0] == 'P' || s[0] == 'p') && (s[1] == 'M' || s[1] == 'm') then Some(true)
    else None
  }

  // ---------------------------------------------------------------------
  // The strict pattern of both payment routes:
  //   /^(\d{1,2})(?::(\d{2}))?\s*(AM|PM)$/i
  // ---------------------------------------------------------------------

  /** The text the strict pattern reads before the white space: `8`, `08`, `8:30`. */
  function StrictText(l: Label12): string {
    l.hourDigits + (if l.minuteDigits.Some? then ":" + l.minuteDigits.value else "")
  }

  function StrictBody(body: string, pm: bool): Option<Label12> {
    if 1 <= |body| <= 2 && AllDigits(body) then Some(Label12(body, None, pm))
    else if 4 <= |body| <= 5 && body[|body| - 3] == ':' && AllDigits(body[..|body| - 3]) && AllDigits(body[|body| - 2..])
    then Some(Label12(body[..|body| - 3], Some(body[|body| - 2..]), pm))
    else None
  }

  /** The strict pattern applied to a whole string. */
  function MatchStrict(s: string): (r: Option<Label12>)
    ensures r.Some? ==> WellFormed(r.value)
  {
    if |s| < 2 then None
    else match Meridiem(s[|s| - 2..])
      case None => None
      case Some(pm) => StrictBody(TrimEnd(s[..|s| - 2]), pm)
  }

  /** Every string the strict pattern accepts is label text, white space and a suffix. */
  lemma MatchStrictSound(s: string)
    requires MatchStrict(s).Some?
    ensures var l := MatchStrict(s).value; var n := |StrictText(l)|;
      && n + 2 <= |s| && s[..n] == StrictText(l)
      && AllSpace(s[n..|s| - 2]) && Meridiem(s[|s| - 2..]) == Some(l.pm)
  {
    var l := MatchStrict(s).value;
    var body := TrimEnd(s[..|s| - 2]);
    if |body| >= 4 {
      assert body[..|body| - 3] + ":" + body[|body| - 2..] == body;
    }
    assert StrictText(l) == body;
    assert s[..|s| - 2][|body|..] == s[|body|..|s| - 2];
  }

  /** Every label text, followed by any white space and a suffix in any case, is accepted and read back. */
  lemma MatchStrictComplete(l: Label12, ws: string, ap: string)
    requires WellFormed(l) && AllSpace(ws) && Meridiem(ap) == Some(l.pm)
    ensures MatchStrict(StrictText(l) + ws + ap) == Some(l)
  {
    var t := StrictText(l);
    var s := t + ws + ap;
    assert s[|s| - 2..] == ap;
    assert s[..|s| - 2] == t + ws;
    TrimEndSpaces(t, ws);
    if l.minuteDigits.Some? {
      assert t == l.hourDigits + ":" + l.minuteDigits.value;
      assert t[|t| - 3] == ':';
      assert t[..|t| - 3] == l.hourDigits;
      assert t[|t| - 2..] == l.minuteDigits.value;
      assert !AllDigits(t) by { assert !IsDigit(t[|t| - 3]); }
      assert StrictBody(t, l.pm) == Some(l);
    } else {
      assert t == l.hourDigits;
      assert StrictBody(t, l.pm) == Some(l);
    }
    assert MatchStrict(s) == StrictBody(TrimEnd(s[..|s| - 2]), l.pm);
  }

  /** A label text with its white space and suffix has nothing for `trim` to remove. */
  lemma StrictLabelTrimmed(l: Label12, ws: string, ap: string)
    requires WellFormed(l) && Meridiem(ap).Some?
    ensures var s := StrictText(l) + ws + ap;
      Trim(s) == s && !IsDigit(s[|s| - 1])
  {
    var s := StrictText(l) + ws + ap;
    assert s[0] == l.hourDigits[0];
    assert s[|s| - 1] == ap[1];
    TrimUnchanged(s);
  }

  // ---------------------------------------------------------------------
  // The looser dashboard pattern:
  //   /^(\d{1,2}):?(\d{2})?\s*(AM|PM)$/i
  // The colon and the minutes are optional independently, so `830PM`,
  // `12:PM` and `123PM` (hour 1, minute 23) are accepted.
  // ---------------------------------------------------------------------

  function LooseText(l: Label12, colon: bool): string {
    l.hourDigits + (if colon then ":" else "") + (if l.minuteDigits.Some? then l.minuteDigits.value else "")
  }

  function LooseBody(body: string, pm: bool): Option<Label12> {
    if 1 <= |body| <= 2 && AllDigits(body) then Some(Label12(body, None, pm))
    else if 3 <= |body| <= 4 && AllDigits(body) then Some(Label12(body[..|body| - 2], Some(body[|body| - 2..]), pm))
    else if 2 <= |body| <= 3 && body[|body| - 1] == ':' && AllDigits(body[..|body| - 1])
    then Some(Label12(body[..|body| - 1], None, pm))
    else if 4 <= |body| <= 5 && body[|body| - 3] == ':' && AllDigits(body[..|body| - 3]) && AllDigits(body[|body| - 2..])
    then Some(Label12(body[..|body| - 3], Some(body[|body| - 2..]), pm))
    else None
  }

  /** The loose pattern applied to a whole string. */
  function MatchLoose(s: string): (r: Option<Label12>)
    ensures r.Some? ==> WellFormed(r.value)
  {
    if |s| < 2 then None
    else match Meridiem(s[|s| - 2..])
      case None => None
      case Some(pm) => LooseBody(TrimEnd(s[..|s| - 2]), pm)
  }

  /** Every string the loose pattern accepts is label text (with or without the colon), white space and a suffix. */
  lemma MatchLooseSound(s: string)
    requires MatchLoose(s).Some?
    ensures var l := MatchLoose(s).value;
      exists colon: bool {:trigger LooseText(l, colon)} ::
        var n := |LooseText(l, colon)|;
        && n + 2 <= |s| && s[..n] == LooseText(l, colon)
        && AllSpace(s[n..|s| - 2]) && Meridiem(s[|s| - 2..]) == Some(l.pm)
  {
    var l := MatchLoose(s).value;
    var body := TrimEnd(s[..|s| - 2]);
    assert LooseBody(body, l.pm) == Some(l);
    var colon := LooseBodyText(body, l.pm);
    assert s[..|s| - 2][|body|..] == s[|body|..|s| - 2];
    var n := |LooseText(l, colon)|;
    assert n + 2 <= |s| && s[..n] == LooseText(l, colon)
      && AllSpace(s[n..|s| - 2]) && Meridiem(s[|s| - 2..]) == Some(l.pm);
  }

  /** The text the loose pattern read before the white space is the label
      text, with the colon exactly when that text is not all digits. */
  lemma LooseBodyText(body: string, pm: bool) returns (colon: bool)
    requires LooseBody(body, pm).Some?
    ensures LooseText(LooseBody(body, pm).value, colon) == body
  {
    colon := !AllDigits(body);
    if !colon {
      if |body| >= 3 { assert body[..|body| - 2] + body[|body| - 2..] == body; }
    } else if body[|body| - 1] == ':' {
      assert body[..|body| - 1] + ":" == body;
    } else {
      assert body[..|body| - 3] + ":" + body[|body| - 2..] == body;
    }
  }

  /** Every loose label text, with or without its colon, followed by white space and a suffix, is read back. */
  lemma MatchLooseComplete(l: Label12, colon: bool, ws: string, ap: string)
    requires WellFormed(l) && AllSpace(ws) && Meridiem(ap) == Some(l.pm)
    ensures MatchLoose(LooseText(l, colon) + ws + ap) == Some(l)
  {
    var t := LooseText(l, colon);
    var s := t + ws + ap;
    assert s[|s| - 2..] == ap;
    assert s[..|s| - 2] == t + ws;
    assert t != [] && (IsDigit(t[|t| - 1]) || t[|t| - 1] == ':');
    TrimEndSpaces(t, ws);
    LooseBodyOfText(l, colon);
    assert MatchLoose(s) == LooseBody(TrimEnd(s[..|s| - 2]), l.pm);
  }

  /** The loose body pattern reads every label text back. */
  lemma LooseBodyOfText(l: Label12, colon: bool)
    requires WellFormed(l)
    ensures LooseBody(LooseText(l, colon), l.pm) == Some(l)
  {
    var t := LooseText(l, colon);
    if colon {
      assert !AllDigits(t) by { assert t[|l.hourDigits|] == ':'; }
      if l.minuteDigits.Some? {
        assert t[..|t| - 3] == l.hourDigits;
        assert t[|t| - 2..] == l.minuteDigits.value;
      } else {
        assert t == l.hourDigits + ":";
        assert t[..|t| - 1] == l.hourDigits;
      }
    } else if l.minuteDigits.Some? {
      assert t == l.hourDigits + l.minuteDigits.value;
      assert AllDigits(t);
      assert t[..|t| - 2] == l.hourDigits;
      assert t[|t| - 2..] == l.minuteDigits.value;
    } else {
      assert t == l.hourDigits;
    }
  }

  // ---------------------------------------------------------------------
  // From a label to a 24-hour clock
  // ---------------------------------------------------------------------

  /** The 24-hour hour every route derives: 12 AM is 0, 12 PM stays 12, any
      other PM hour gains 12, any other AM hour is kept. Nothing checks the
      range, so `13PM` gives 25. */
  function Hour24(l: Label12): (h: nat)
    requires WellFormed(l)
    ensures var h12 := DigitsValue(l.hourDigits);
      1 <= h12 <= 12 ==> h < 24 && (h >= 12 <==> l.pm) && (if h % 12 == 0 then 12 else h % 12) == h12
  {
    var h := DigitsValue(l.hourDigits);
    if l.pm && h != 12 then h + 12 else if !l.pm && h == 12 then 0 else h
  }

  /** The minute a label names; 0 when it has no minute digits. */
  function Minute(l: Label12): (m: nat)
    requires WellFormed(l)
    ensures m < 100
    ensures l.minuteDigits.None? ==> m == 0
    ensures l.minuteDigits.Some? ==> ParseInt(l.minuteDigits.value) == Int(m)
  {
    if l.minuteDigits.Some? then
      var d := l.minuteDigits.value;
      TwoDigitsValue(d);
      assert d + "" == d;
      ParseIntDigits(d, "");
      DigitsValue(d)
    else 0
  }

  /** `${hh}:${mm}:00` with both fields `padStart(2, "0")`. */
  function ClockText(h: nat, m: nat): string {
    Pad2(h) + ":" + Pad2(m) + ":00"
  }

  /** `split(":")` takes a clock text apart into its three fields. */
  lemma SplitClockText(h: nat, m: nat)
    ensures Split(ClockText(h, m), ':') == [Pad2(h), Pad2(m), "00"]
  {
    var hh, mm := Pad2(h), Pad2(m);
    assert ClockText(h, m) == hh + [':'] + (mm + [':'] + "00");
    DigitsExclude(hh, ':');
    DigitsExclude(mm, ':');
    SplitFirst(hh, ':', mm + [':'] + "00");
    SplitFirst(mm, ':', "00");
    SplitWhole("00", ':');
  }

  /** `Number` reads a two-digit field back as its value. */
  lemma ClockFieldNumber(n: nat)
    ensures StringToNumber(Pad2(n)) == Int(n)
  {
    StringToNumberDigits(Pad2(n));
    Pad2Value(n);
  }

  /** The wall clock left by `new Date(Date.UTC(2000, 0, 1, h, m, 0))` and then
      `setUTCHours(getUTCHours() + n)`: minutes past 59 and hours past 23 carry
      into the day, which is then dropped. */
  function ShiftClock(h: int, m: int, n: int): (r: (nat, nat))
    ensures r.0 < 24 && r.1 < 60
  {
    var t := h * 60 + m;
    ((t / 60 % 24 + n) % 24, t % 60)
  }

  /** For a minute in 0..59 the shift keeps the minute and adds `n` to the hour modulo 24. */
  lemma ShiftClockInRange(h: int, m: int, n: int)
    requires 0 <= m < 60
    ensures ShiftClock(h, m, n) == ((h + n) % 24, m)
  {
    var t := h * 60 + m;
    assert t / 60 == h && t % 60 == m by {
      assert t == h * 60 + m;
    }
    assert (h % 24 + n) % 24 == (h + n) % 24;
  }

  /** `NaN:NaN:00`, what both hour-adding helpers print for an invalid date. */
  const InvalidClock: string := "NaN:NaN:00"

  /** `start24.split(":").map(Number)` as the hour-adding helpers use it:
      the hour, and the minute with `m || 0` applied (a missing or NaN
      minute reads as 0). */
  function ClockFields(start24: string): (Number, int) {
    var parts := Split(start24, ':');
    var m := if |parts| > 1 then StringToNumber(parts[1]) else NaN;
    (StringToNumber(parts[0]), if m.Int? then m.value else 0)
  }

  /** A printed clock reads back as its hour and minute. */
  lemma ClockFieldsOfClock(h: nat, m: nat)
    ensures ClockFields(ClockText(h, m)) == (Int(h), m)
  {
    var parts := Split(ClockText(h, m), ':');
    SplitClockText(h, m);
    assert parts[0] == Pad2(h) && parts[1] == Pad2(m) && |parts| > 1;
    ClockFieldNumber(h);
    ClockFieldNumber(m);
  }

  /** The shared body of `addHoursTo24h` and `addHours`: a UTC date at the
      clock's hour and minute, `n` hours added, the clock printed back. A NaN
      hour makes the date invalid. */
  function ShiftClockText(start24: string, n: int): string {
    var (h, minute) := ClockFields(start24);
    if h.NaN? then InvalidClock
    else
      var shifted := ShiftClock(h.value, minute, n);
      ClockText(shifted.0, shifted.1)
  }

  /** On a clock text the hour moves by `n` modulo 24 and the minute stays. */
  lemma ShiftClockTextOfClock(h: nat, m: nat, n: int)
    requires m < 60
    ensures ShiftClockText(ClockText(h, m), n) == ClockText((h + n) % 24, m)
  {
    var shifted := ShiftClock(h, m, n);
    assert ShiftClockText(ClockText(h, m), n) == ClockText(shifted.0, shifted.1) by {
      ClockFieldsOfClock(h, m);
    }
    assert shifted == ((h + n) % 24, m) by {
      ShiftClockInRange(h, m, n);
    }
  }

  // ---------------------------------------------------------------------
  // Display: formatTime in the dashboard and in the update-SMS route
  // ---------------------------------------------------------------------

  /** `hour % 12 === 0 ? 12 : hour % 12`; NaN stays NaN. */
  function Hour12(hour: Number): Number {
    match hour
    case NaN => NaN
    case Int(v) => if Rem(v, 12) == 0 then Int(12) else Int(Rem(v, 12))
  }

  /** `formatTime(time24)`: empty for an empty value, otherwise the 12-hour
      hour, the minute text as written (`00` when there is no colon) and
      the suffix, PM exactly when the parsed hour is at least 12. */
  function FormatTime(t: string): (r: string)
    ensures r == "" <==> t == ""
  {
    if t == "" then ""
    else
      var parts := Split(t, ':');
      var minuteText := if |parts| > 1 then parts[1] else "00";
      var hour := ParseInt(parts[0]);
      var suffix := if hour.Int? && hour.value >= 12 then "PM" else "AM";
      NumberText(Hour12(hour)) + ":" + minuteText + suffix
  }

  /** For a clock text `HH:mm...` the display is the 12-hour hour in 1..12,
      the minute text unchanged, and PM exactly for hours 12..23. */
  lemma FormatTimeOfClock(h: nat, minuteText: string, rest: string)
    requires h < 24 && ':' !in minuteText
    requires rest == "" || rest[0] == ':'
    ensures var h12 := if h % 12 == 0 then 12 else h % 12;
      FormatTime(Pad2(h) + ":" + minuteText + rest)
        == NatText(h12) + ":" + minuteText + (if h >= 12 then "PM" else "AM")
  {
    var hh := Pad2(h);
    var tail := minuteText + rest;
    var t := hh + ":" + minuteText + rest;
    assert t == hh + [':'] + tail;
    DigitsExclude(hh, ':');
    SplitFirst(hh, ':', tail);
    var parts := Split(t, ':');
    assert parts[0] == hh;
    if rest == "" {
      SplitWhole(minuteText, ':');
      assert tail == minuteText;
    } else {
      assert tail == minuteText + [':'] + rest[1..];
      SplitFirst(minuteText, ':', rest[1..]);
    }
    assert parts[1] == minuteText;
    ParseIntNatText(h, []);
    assert hh + [] == hh;
    assert ParseInt(parts[0]) == Int(h);
  }
}
