/** The payment webhook (pages/api/stripe-webhook.js): turns a completed
    checkout session into one paid, confirmed booking row, skipping sessions
    already recorded and slots the conflict check rejects. */
module StripeWebhook {
  import opened Wrappers
  import opened Text
  import opened Js
  import opened TimeLabels
  import opened Bookings
  import opened Checkout

  // ---------------------------------------------------------------------
  // to24h and addHoursTo24h
  // ---------------------------------------------------------------------

  /** `/^\d{2}:\d{2}$/`: two digits, a colon, two digits. */
  predicate IsClock24(s: string) {
    |s| == 5 && IsDigit(s[0]) && IsDigit(s[1]) && s[2] == ':' && IsDigit(s[3]) && IsDigit(s[4])
  }

  /** `to24h(timeLabel)`: `HH:MM` gains `:00`; a 12-hour label becomes
      `HH:MM:00`; anything else, and the empty label, gives null. */
  function To24h(timeLabel: string): Option<string> {
    if timeLabel == "" then None
    else if IsClock24(timeLabel) then Some(timeLabel + ":00")
    else match MatchStrict(Trim(timeLabel))
      case None => None
      case Some(l) => Some(ClockText(Hour24(l), Minute(l)))
  }

  /** `HH:MM` is passed through with seconds appended; the empty label is refused. */
  lemma To24hPassThrough(timeLabel: string)
    ensures timeLabel == "" ==> To24h(timeLabel) == None
    ensures IsClock24(timeLabel) ==> To24h(timeLabel) == Some(timeLabel + ":00") && |timeLabel + ":00"| == 8
  {
  }

  /** A 12-hour label (hour digits, optional `:MM`, any white space, AM or PM in
      any case) becomes the zero-padded clock of `Hour24` and its minute. */
  lemma To24hOfLabel(l: Label12, ws: string, ap: string)
    requires WellFormed(l) && AllSpace(ws) && Meridiem(ap) == Some(l.pm)
    ensures To24h(StrictText(l) + ws + ap) == Some(ClockText(Hour24(l), Minute(l)))
  {
    StrictLabelTrimmed(l, ws, ap);
    MatchStrictComplete(l, ws, ap);
  }

  /** Labels matching neither form give null. */
  lemma To24hRejects(timeLabel: string)
    requires !IsClock24(timeLabel) && MatchStrict(Trim(timeLabel)).None?
    ensures To24h(timeLabel) == None
  {
  }

  /** Hours are not range-checked: a PM label whose hour is past 12 (`13PM`)
      converts to an hour of 24 or more (`25:00:00`). */
  lemma To24hNoRangeCheck(l: Label12, ws: string, ap: string)
    requires WellFormed(l) && AllSpace(ws) && Meridiem(ap) == Some(true) && l.pm
    requires DigitsValue(l.hourDigits) > 12
    ensures To24h(StrictText(l) + ws + ap) == Some(ClockText(DigitsValue(l.hourDigits) + 12, Minute(l)))
    ensures DigitsValue(l.hourDigits) + 12 >= 25
  {
    To24hOfLabel(l, ws, ap);
  }

  /** `Number(hours) || 2`: zero and NaN fall back to two hours. */
  function HoursToAdd(hours: Value): (n: int)
    ensures n != 0
    ensures ToNumber(hours).Int? && ToNumber(hours).value != 0 ==> n == ToNumber(hours).value
  {
    match ToNumber(hours)
    case Int(n) => if n != 0 then n else 2
    case NaN => 2
  }

  /** `addHoursTo24h(start24, hours)`: the clock shifted by `Number(hours) || 2` hours. */
  function AddHoursTo24h(start24: string, hours: Value): string {
    ShiftClockText(start24, HoursToAdd(hours))
  }

  /** On a clock text the end time is the start hour plus the hours, modulo
      24, with the minute kept and seconds `00`. */
  lemma AddHoursToClock(h: nat, m: nat, hours: Value)
    requires m < 60
    ensures AddHoursTo24h(ClockText(h, m), hours) == ClockText((h + HoursToAdd(hours)) % 24, m)
  {
    ShiftClockTextOfClock(h, m, HoursToAdd(hours));
  }

  // ---------------------------------------------------------------------
  // The checkout.session.completed branch
  // ---------------------------------------------------------------------

  /** The verified event: its type and the checkout session it carries. */
  datatype Event = Event(kind: string, session: Session)

  /** A delivery as the route sees it: the HTTP method and the event that
      signature verification produced, or none when verification threw. */
  datatype Delivery = Delivery(httpMethod: string, event: Option<Event>)

  /** The `bookings_conflict` call: an error, or how many conflicting rows it
      returned (a null list counts as none). */
  datatype ConflictReply = RpcError | Conflicts(count: nat)

  datatype Reply = MethodNotAllowed | SignatureError | Received

  function Status(r: Reply): nat {
    match r
    case MethodNotAllowed => 405
    case SignatureError => 400
    case Received => 200
  }

  const CompletedEvent: string := "checkout.session.completed"

  /** `md.duration || 2`, as handed to `addHoursTo24h`. */
  function DurationArg(md: map<string, string>): Value {
    if "duration" in md && md["duration"] != "" then Str(md["duration"]) else Num(Int(2))
  }

  /** The slot a valid session books. */
  datatype Slot = Slot(date: string, startLabel: string, start24: string, end24: string)

  datatype Rejection = MissingDateOrStart | UnparsableStart

  /** Basic validation: date and start label must be non-blank and the label must convert. */
  function ValidateMetadata(md: map<string, string>): Result<Slot, Rejection> {
    var date := Field(md, "date");
    var timeLabel := Field(md, "start_time");
    if date == "" || timeLabel == "" then Err(MissingDateOrStart)
    else match To24h(timeLabel)
      case None => Err(UnparsableStart)
      case Some(start24) => Ok(Slot(date, timeLabel, start24, AddHoursTo24h(start24, DurationArg(md))))
  }

  /** A blank or missing date or start label, or an unconvertible label, is refused. */
  lemma ValidateRejects(md: map<string, string>)
    ensures Field(md, "date") == "" || Field(md, "start_time") == "" ==> ValidateMetadata(md) == Err(MissingDateOrStart)
    ensures Field(md, "date") != "" && Field(md, "start_time") != "" && To24h(Field(md, "start_time")).None?
      ==> ValidateMetadata(md) == Err(UnparsableStart)
  {
  }

  /** A session whose start converts to a clock books that start and an end
      the duration later, modulo 24 hours, with the minute kept. */
  lemma ValidateClock(md: map<string, string>, h: nat, m: nat)
    requires m < 60 && Field(md, "date") != "" && Field(md, "start_time") != ""
    requires To24h(Field(md, "start_time")) == Some(ClockText(h, m))
    ensures ValidateMetadata(md) == Ok(Slot(Field(md, "date"), Field(md, "start_time"), ClockText(h, m),
                                            ClockText((h + HoursToAdd(DurationArg(md))) % 24, m)))
  {
    AddHoursToClock(h, m, DurationArg(md));
  }

  /** A session whose start is a 12-hour label books the converted start
      (hour `h`, minute `m`) and an end that many hours later on the 24-hour clock. */
  lemma ValidateLabel(md: map<string, string>, l: Label12, ws: string, ap: string, h: nat, m: nat)
    requires WellFormed(l) && AllSpace(ws) && Meridiem(ap) == Some(l.pm)
    requires h == Hour24(l) && m == Minute(l) && m < 60
    requires Field(md, "date") != "" && Field(md, "start_time") == StrictText(l) + ws + ap
    ensures ValidateMetadata(md).Ok?
    ensures ValidateMetadata(md).value.start24 == ClockText(h, m)
    ensures ValidateMetadata(md).value.end24 == ClockText((h + HoursToAdd(DurationArg(md))) % 24, m)
  {
    To24hOfLabel(l, ws, ap);
    ValidateClock(md, h, m);
  }

  /** The row's client columns: each present metadata key under its column name. */
  const DetailColumns: map<string, string> := map[
    "name" := "name", "instagram" := "instagram", "phone" := "phone", "service" := "service",
    "art_level" := "artLevel", "length" := "length", "notes" := "notes", "soakoff" := "soakoff",
    "returning" := "returning", "duration" := "duration", "referral" := "referral",
    "pedicure" := "pedicure", "pedicure_type" := "pedicure_type", "booking_nails" := "booking_nails"]

  function RowDetails(md: map<string, string>): map<string, string> {
    map c | c in DetailColumns && DetailColumns[c] in md :: md[DetailColumns[c]]
  }

  /** The inserted row (the store assigns its id). */
  function NewRow(session: Session, slot: Slot): Booking {
    Booking(0, RowDetails(session.metadata), Some(slot.date), Some(slot.start24), Some(slot.end24),
            true, true, Some(session.id))
  }

  function ValueOr(md: map<string, string>, key: string, default: string): string {
    if key in md then md[key] else default
  }

  /** The confirmation text sent after a successful insert. */
  function ConfirmationSms(md: map<string, string>, slot: Slot): Sms {
    Sms(ValueOr(md, "phone", ""),
        "\U{2705} Confirmed: " + ValueOr(md, "service", "Appointment") + " on " + slot.date
        + " at " + slot.startLabel + ". See you soon!")
  }

  /** The row a completed checkout session goes on to insert, with its SMS,
      before the insert itself can fail; none when an earlier step returns.
      A failed session lookup is only logged, so it does not stop the insert. */
  function SessionPlan(session: Session, rows: seq<Booking>, lookupFailed: bool, conflict: ConflictReply): Option<(Booking, Sms)> {
    match ValidateMetadata(session.metadata)
    case Err(_) => None
    case Ok(slot) =>
      if !lookupFailed && SessionRow(rows, session.id).Some? then None
      else if conflict != Conflicts(0) then None
      else Some((NewRow(session, slot), ConfirmationSms(session.metadata, slot)))
  }

  /** What a delivery goes on to insert: only a POST carrying a verified
      `checkout.session.completed` event reaches the session's plan. */
  function Planned(d: Delivery, rows: seq<Booking>, lookupFailed: bool, conflict: ConflictReply): Option<(Booking, Sms)> {
    if d.httpMethod != "POST" || d.event.None? || d.event.value.kind != CompletedEvent then None
    else SessionPlan(d.event.value.session, rows, lookupFailed, conflict)
  }

  /** Whatever is inserted is paid, confirmed, tagged with the session and
      timed by the converted start and the computed end; it was planned only
      for a POST of a completed checkout whose slot had no conflict and, when
      the lookup worked, whose session did not have exactly one row (the
      lookup's data is null for no row and for several rows alike). */
  lemma PlannedRow(d: Delivery, rows: seq<Booking>, lookupFailed: bool, conflict: ConflictReply)
    requires Planned(d, rows, lookupFailed, conflict).Some?
    ensures d.httpMethod == "POST" && d.event.Some? && d.event.value.kind == CompletedEvent
    ensures conflict == Conflicts(0)
    ensures ValidateMetadata(d.event.value.session.metadata).Ok?
    ensures !lookupFailed ==> !LookupSession(rows, d.event.value.session.id).One?
    ensures var b := Planned(d, rows, lookupFailed, conflict).value.0;
      var slot := ValidateMetadata(d.event.value.session.metadata).value;
      && b.paid && b.confirmed && b.sessionId == Some(d.event.value.session.id)
      && b.date == Some(slot.date) && b.startTime == Some(slot.start24) && b.endTime == Some(slot.end24)
      && slot.end24 == AddHoursTo24h(slot.start24, DurationArg(d.event.value.session.metadata))
  {
    var session := d.event.value.session;
    var v := ValidateMetadata(session.metadata);
    assert v.Ok?;
    assert Planned(d, rows, lookupFailed, conflict).value.0 == NewRow(session, v.value);
  }

  /** A session that already has its row is not inserted again (when the lookup succeeds). */
  lemma RedeliveryInsertsNothing(d: Delivery, rows: seq<Booking>, conflict: ConflictReply, b: Booking)
    requires d.event.Some? && LookupSession(rows, d.event.value.session.id) == One(b)
    ensures Planned(d, rows, false, conflict) == None
  {
  }

  /** A delivery leaves at most one row for its session when there was at most one before. */
  lemma {:induction false} DeliveryKeepsOneRow(d: Delivery, rows: seq<Booking>, conflict: ConflictReply, id: nat)
    requires d.event.Some? && |WithSession(rows, d.event.value.session.id)| <= 1
    ensures var sid := d.event.value.session.id;
      var p := Planned(d, rows, false, conflict);
      |WithSession(if p.Some? then rows + [p.value.0.(id := id)] else rows, sid)| <= 1
  {
    var sid := d.event.value.session.id;
    var p := Planned(d, rows, false, conflict);
    if p.Some? {
      assert LookupSession(rows, sid).NoRow?;
      var r := rows + [p.value.0.(id := id)];
      assert r[..|r| - 1] == rows;
    }
  }

  /** With a working lookup, a planned row keeps session ids unique. */
  lemma PlanKeepsSessionsUnique(session: Session, rows: seq<Booking>, conflict: ConflictReply, id: nat)
    requires AtMostOnePerSession(rows) && SessionPlan(session, rows, false, conflict).Some?
    ensures AtMostOnePerSession(rows + [SessionPlan(session, rows, false, conflict).value.0.(id := id)])
  {
    var b := SessionPlan(session, rows, false, conflict).value.0;
    assert b.sessionId == Some(session.id);
    AtMostOneRow(rows, session.id);
    AppendNewSession(rows, b.(id := id), session.id);
  }

  /** The completed-checkout branch: validate, look the session up, check the
      slot for conflicts, insert, and hand back the confirmation SMS. */
  method RecordSession(store: BookingStore, session: Session, lookupFailed: bool, conflict: ConflictReply, insertFails: bool)
    returns (sms: Option<Sms>)
    requires store.Valid()
    modifies store
    ensures store.Valid()
    ensures var p := SessionPlan(session, old(store.rows), lookupFailed, conflict);
      if p.Some? && !insertFails then
        store.rows == old(store.rows) + [p.value.0.(id := old(store.nextId))] && sms == Some(p.value.1)
      else
        store.rows == old(store.rows) && sms == None
    ensures !lookupFailed && old(AtMostOnePerSession(store.rows)) ==> AtMostOnePerSession(store.rows)
  {
    sms := None;
    var md := session.metadata;
    var checked := ValidateMetadata(md);
    if checked.Ok? {
      var slot := checked.value;
      var existing := if lookupFailed then None else SessionRow(store.rows, session.id);
      var clear := conflict == Conflicts(0);
      if existing.None? && clear && !insertFails {
        var row := NewRow(session, slot);
        if !lookupFailed && AtMostOnePerSession(store.rows) {
          PlanKeepsSessionsUnique(session, store.rows, conflict, store.nextId);
        }
        var _ := store.Insert(row);
        sms := Some(ConfirmationSms(md, slot));
      }
    }
  }

  /** The route. Every verified delivery is acknowledged with 200; only a
      non-POST request (405) and a failed signature check (400) are not. */
  method Handle(store: BookingStore, d: Delivery, lookupFailed: bool, conflict: ConflictReply, insertFails: bool)
    returns (reply: Reply, sms: Option<Sms>)
    requires store.Valid()
    modifies store
    ensures store.Valid()
    ensures reply == (if d.httpMethod != "POST" then MethodNotAllowed
                      else if d.event.None? then SignatureError
                      else Received)
    ensures var p := Planned(d, old(store.rows), lookupFailed, conflict);
      if p.Some? && !insertFails then
        store.rows == old(store.rows) + [p.value.0.(id := old(store.nextId))] && sms == Some(p.value.1)
      else
        store.rows == old(store.rows) && sms == None
    ensures !lookupFailed && old(AtMostOnePerSession(store.rows)) ==> AtMostOnePerSession(store.rows)
  {
    if d.httpMethod != "POST" {
      return MethodNotAllowed, None;
    }
    if d.event.None? {
      return SignatureError, None;
    }
    var event := d.event.value;
    if event.kind != CompletedEvent {
      return Received, None;
    }
    sms := RecordSession(store, event.session, lookupFailed, conflict, insertFails);
    reply := Received;
  }
}
