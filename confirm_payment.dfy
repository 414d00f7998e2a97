/** The success-page confirmation route (pages/api/confirm-payment.js): checks
    the checkout session is paid, polls the store for the row the webhook
    writes, confirms it if needed and answers with its id. Its own `to24h`
    and `addHours` helpers differ from the webhook's in two edge cases. */
module ConfirmPayment {
  import opened Wrappers
  import opened Text
  import opened Js
  import opened TimeLabels
  import opened Bookings
  import opened Checkout
  import StripeWebhook

  // ---------------------------------------------------------------------
  // to24h and addHours
  // ---------------------------------------------------------------------

  /** `to24h(label)`: only the 12-hour pattern is accepted; there is no
      `HH:MM` pass-through. */
  function To24h(timeLabel: string): Option<string> {
    if timeLabel == "" then None
    else match MatchStrict(Trim(timeLabel))
      case None => None
      case Some(l) => Some(ClockText(Hour24(l), Minute(l)))
  }

  /** A 12-hour label becomes the padded clock of `Hour24` and its minute. */
  lemma To24hOfLabel(l: Label12, ws: string, ap: string)
    requires WellFormed(l) && AllSpace(ws) && Meridiem(ap) == Some(l.pm)
    ensures To24h(StrictText(l) + ws + ap) == Some(ClockText(Hour24(l), Minute(l)))
  {
    StrictLabelTrimmed(l, ws, ap);
    MatchStrictComplete(l, ws, ap);
  }

  /** An `HH:MM` clock, which the webhook passes through, is refused here. */
  lemma To24hRefusesClock(hh: string, mm: string)
    requires |hh| == 2 && AllDigits(hh) && |mm| == 2 && AllDigits(mm)
    ensures To24h(hh + ":" + mm) == None
  {
    var s := hh + ":" + mm;
    assert s[0] == hh[0] && s[4] == mm[1] && s[|s| - 2..] == mm;
    assert Meridiem(mm) == None by { assert IsDigit(mm[0]); }
    TrimUnchanged(s);
  }

  /** `Number(hrs || 2)`, with `hrs` defaulting to 2 when absent: any falsy
      value gives 2, a non-numeric string gives NaN, `"0"` gives 0. */
  function HoursArg(hrs: Value): Number {
    if Truthy(hrs) then ToNumber(hrs) else Int(2)
  }

  /** `addHours(start24, hrs)`: the clock shifted by `Number(hrs || 2)` hours. */
  function AddHours(start24: string, hrs: Value): string {
    match HoursArg(hrs)
    case NaN => InvalidClock
    case Int(n) => ShiftClockText(start24, n)
  }

  /** On a clock text the end is the start hour plus the hours modulo 24,
      with the minute kept; a non-numeric hour count gives `NaN:NaN:00`. */
  lemma AddHoursToClock(h: nat, m: nat, hrs: Value, n: int)
    requires m < 60 && HoursArg(hrs) == Int(n)
    ensures AddHours(ClockText(h, m), hrs) == ClockText((h + n) % 24, m)
  {
    ShiftClockTextOfClock(h, m, n);
  }

  /** An absent, null, zero or empty hour count means two hours; a string
      that is not a number makes the end `NaN:NaN:00`. */
  lemma AddHoursDefaults(start24: string, hrs: Value)
    ensures !Truthy(hrs) ==> AddHours(start24, hrs) == AddHours(start24, Num(Int(2)))
    ensures HoursArg(hrs).NaN? ==> AddHours(start24, hrs) == InvalidClock
  {
  }

  /** Where the two routes part, case one: a duration of `"0"` adds no
      hours here, while the webhook adds two. */
  lemma ZeroHoursDifferFromWebhook()
    ensures HoursArg(Str("0")) == Int(0) && StripeWebhook.HoursToAdd(Str("0")) == 2
  {
    StringToNumberDigits("0");
  }

  /** Case two: a duration that is not a number makes the end `NaN:NaN:00`
      here, while the webhook adds two hours. */
  lemma WordHoursDifferFromWebhook(start24: string, s: string)
    requires StringToNumber(s) == NaN
    ensures HoursArg(Str(s)) == NaN && AddHours(start24, Str(s)) == InvalidClock
    ensures StripeWebhook.HoursToAdd(Str(s)) == 2
  {
  }

  /** A word such as `abc` is such a duration. */
  lemma WordIsNotANumber()
    ensures StringToNumber("abc") == NaN
  {
    StringToNumberNonNumeric("abc");
  }

  // ---------------------------------------------------------------------
  // Phone normalisation
  // ---------------------------------------------------------------------

  /** `phone.startsWith("+1") ? phone : "+1" + phone`. */
  function FormatPhone(phone: string): (r: string)
    ensures StartsWith(r, "+1")
    ensures r == phone || r == "+1" + phone
    ensures StartsWith(phone, "+1") <==> r == phone
  {
    if StartsWith(phone, "+1") then phone else "+1" + phone
  }

  /** Normalising twice is normalising once. */
  lemma FormatPhoneIdempotent(phone: string)
    ensures FormatPhone(FormatPhone(phone)) == FormatPhone(phone)
  {
  }

  // ---------------------------------------------------------------------
  // The bounded lookup loop
  // ---------------------------------------------------------------------

  /** `maxRetries`: at most ten lookups, a second apart. */
  const MaxRetries: nat := 10

  /** Whether lookup number `i` (from 0) returned without a store error;
      `fails[i]` says that it failed, attempts past the list succeed. */
  predicate ClearAttempt(fails: seq<bool>, i: nat) {
    i >= |fails| || !fails[i]
  }

  /** The first attempt from `from` on that gets through, or `MaxRetries`
      when none below it does. */
  function FirstClear(fails: seq<bool>, from: nat): (k: nat)
    requires from <= MaxRetries
    ensures from <= k <= MaxRetries
    ensures k < MaxRetries ==> ClearAttempt(fails, k)
    ensures forall j :: from <= j < k ==> !ClearAttempt(fails, j)
    decreases MaxRetries - from
  {
    if from == MaxRetries || ClearAttempt(fails, from) then from
    else FirstClear(fails, from + 1)
  }

  /** What the loop ends with: the session's single row and the number of
      retries before the first lookup that got through, or no row after
      `MaxRetries` retries. */
  function Poll(rows: seq<Booking>, sid: string, fails: seq<bool>): (r: (Option<Booking>, nat))
    ensures r.1 <= MaxRetries
    ensures r.0.None? <==> r.1 == MaxRetries
    ensures r.0.Some? ==> r.0.value in rows && r.0.value.sessionId == Some(sid)
    ensures r.0.Some? ==> LookupSession(rows, sid) == One(r.0.value) && ClearAttempt(fails, r.1)
  {
    var row := SessionRow(rows, sid);
    var k := FirstClear(fails, 0);
    if row.Some? && k < MaxRetries then (row, k) else (None, MaxRetries)
  }

  /** The loop stops at the first lookup that finds the row: every earlier
      attempt hit a store error. When no row is found, either the session
      has no single row or all ten lookups failed. */
  lemma PollFirstFound(rows: seq<Booking>, sid: string, fails: seq<bool>)
    ensures var (b, retries) := Poll(rows, sid, fails);
      (forall j :: 0 <= j < retries ==> !ClearAttempt(fails, j))
      || (b.None? && !LookupSession(rows, sid).One?)
    ensures Poll(rows, sid, fails).0.None? ==>
      !LookupSession(rows, sid).One? || forall j :: 0 <= j < MaxRetries ==> !ClearAttempt(fails, j)
  {
  }

  /** `while (!booking && retries < maxRetries)`: each attempt runs the
      lookup; a lookup error or no single row waits and retries. */
  method WaitForBooking(rows: seq<Booking>, sid: string, fails: seq<bool>)
    returns (booking: Option<Booking>, retries: nat)
    ensures (booking, retries) == Poll(rows, sid, fails)
  {
    booking := None;
    retries := 0;
    while booking.None? && retries < MaxRetries
      invariant retries <= MaxRetries
      invariant forall j :: 0 <= j < retries ==> !(ClearAttempt(fails, j) && SessionRow(rows, sid).Some?)
      invariant booking.Some? ==>
        booking == SessionRow(rows, sid) && retries < MaxRetries && ClearAttempt(fails, retries)
      decreases MaxRetries - retries, if booking.None? then 1 else 0
    {
      var data := if ClearAttempt(fails, retries) then SessionRow(rows, sid) else None;
      if data.Some? {
        booking := data;
      } else {
        retries := retries + 1;
      }
    }
    ghost var k := FirstClear(fails, 0);
    if booking.Some? {
      assert k == retries;
    } else if SessionRow(rows, sid).Some? {
      assert k == MaxRetries;
    }
  }

  // ---------------------------------------------------------------------
  // The handler
  // ---------------------------------------------------------------------

  /** The body fields the route reads: the HTTP method and `session_id`
      (empty when missing). */
  datatype Request = Request(httpMethod: string, sessionId: string)

  datatype Reply =
    | MethodNotAllowed
    | MissingSessionId
    | PaymentNotCompleted
    | BookingNotFound
    | ConfirmFailed
    | InternalError
    /** `{ success: true, booking_id, confirmed: true }`. */
    | Confirmed(bookingId: nat)

  function Status(r: Reply): nat {
    match r
    case MethodNotAllowed => 405
    case MissingSessionId => 400
    case PaymentNotCompleted => 400
    case BookingNotFound => 500
    case ConfirmFailed => 500
    case InternalError => 500
    case Confirmed(_) => 200
  }

  /** `${booking.date}` of a row: a missing date prints as `null`. */
  function DateText(b: Booking): string {
    if b.date.Some? then b.date.value else "null"
  }

  /** The SMS to the client, attempted only when the metadata has a phone. */
  function ClientSms(md: map<string, string>, b: Booking): Option<Sms> {
    var phone := if "phone" in md then md["phone"] else "";
    var startLabel := if Field(md, "start_time") != "" then Field(md, "start_time") else "your selected time";
    if phone == "" then None
    else Some(Sms(FormatPhone(phone),
      "Hey love! Your appointment with Mya is confirmed for " + DateText(b) + " at " + startLabel
      + " \U{1F485}\n\U{1F4CD}2080 E. Flamingo Rd. Suite #106, Room 4 Las Vegas, NV\n"
      + "DM @myasnailsbaby if you need anything!"))
  }

  /** The outcome of one call: the reply, the rows afterwards and the SMS attempted. */
  datatype Outcome = Outcome(reply: Reply, rows: seq<Booking>, sms: Option<Sms>)

  /** The handler as a function of the rows and of what its foreign calls
      return: the session the payment provider reports (none when the call
      throws), which lookups fail and whether the confirm update fails.
      Whether the email or the SMS send fails is not an argument: neither
      can change the outcome. */
  function Confirm(rows: seq<Booking>, req: Request, retrieved: Option<Session>, fails: seq<bool>, updateFails: bool): Outcome {
    if req.httpMethod != "POST" then Outcome(MethodNotAllowed, rows, None)
    else if req.sessionId == "" then Outcome(MissingSessionId, rows, None)
    else if retrieved.None? then Outcome(InternalError, rows, None)
    else if retrieved.value.paymentStatus != "paid" then Outcome(PaymentNotCompleted, rows, None)
    else
      var found := Poll(rows, req.sessionId, fails).0;
      if found.None? then Outcome(BookingNotFound, rows, None)
      else
        var b := found.value;
        if !b.confirmed && updateFails then Outcome(ConfirmFailed, rows, None)
        else
          var after := if b.confirmed then rows else UpdateWhere(rows, b.id, MarkConfirmed);
          Outcome(Confirmed(b.id), after, ClientSms(retrieved.value.metadata, b))
  }

  /** A non-POST request, a missing session id, an unpaid session, a failed
      provider call and a row not found all leave the rows as they were and
      send nothing; only the first two never reach the store. */
  lemma ConfirmRejects(rows: seq<Booking>, req: Request, retrieved: Option<Session>, fails: seq<bool>, updateFails: bool)
    ensures var o := Confirm(rows, req, retrieved, fails, updateFails);
      !o.reply.Confirmed? ==> o.rows == rows && o.sms == None
    ensures req.httpMethod != "POST" ==> Confirm(rows, req, retrieved, fails, updateFails).reply == MethodNotAllowed
    ensures req.httpMethod == "POST" && req.sessionId == "" ==>
      Confirm(rows, req, retrieved, fails, updateFails).reply == MissingSessionId
    ensures req.httpMethod == "POST" && req.sessionId != "" && retrieved.Some? && retrieved.value.paymentStatus != "paid" ==>
      Confirm(rows, req, retrieved, fails, updateFails).reply == PaymentNotCompleted
    ensures (req.httpMethod == "POST" && req.sessionId != "" && retrieved.Some? && retrieved.value.paymentStatus == "paid"
             && Poll(rows, req.sessionId, fails).0.None?) ==>
      Confirm(rows, req, retrieved, fails, updateFails).reply == BookingNotFound
  {
  }

  /** A 200 names the session's row; afterwards every row with that id is
      confirmed and paid, and the rows changed only if it was unconfirmed. */
  lemma ConfirmedRow(rows: seq<Booking>, req: Request, retrieved: Option<Session>, fails: seq<bool>, updateFails: bool)
    requires forall i, j :: 0 <= i < j < |rows| ==> rows[i].id != rows[j].id
    requires Confirm(rows, req, retrieved, fails, updateFails).reply.Confirmed?
    ensures var o := Confirm(rows, req, retrieved, fails, updateFails);
      var b := LookupSession(rows, req.sessionId).row;
      && LookupSession(rows, req.sessionId).One? && o.reply.bookingId == b.id
      && retrieved.Some? && retrieved.value.paymentStatus == "paid"
      && o.rows == (if b.confirmed then rows else UpdateWhere(rows, b.id, MarkConfirmed))
      && (forall i :: 0 <= i < |o.rows| && o.rows[i].id == b.id ==> o.rows[i].confirmed)
      && (!b.confirmed ==> forall i :: 0 <= i < |o.rows| && o.rows[i].id == b.id ==> o.rows[i].paid)
  {
    var b := Poll(rows, req.sessionId, fails).0.value;
    assert LookupSession(rows, req.sessionId) == One(b);
    ConfirmMarksRow(rows, b);
  }

  /** After the confirm step every row carrying the found row's id is
      confirmed, and paid when the step wrote it. */
  lemma ConfirmMarksRow(rows: seq<Booking>, b: Booking)
    requires forall i, j :: 0 <= i < j < |rows| ==> rows[i].id != rows[j].id
    requires b in rows
    ensures var after := if b.confirmed then rows else UpdateWhere(rows, b.id, MarkConfirmed);
      && (forall i :: 0 <= i < |after| && after[i].id == b.id ==> after[i].confirmed)
      && (!b.confirmed ==> forall i :: 0 <= i < |after| && after[i].id == b.id ==> after[i].paid)
  {
    if b.confirmed {
      var k :| 0 <= k < |rows| && rows[k] == b;
      forall i | 0 <= i < |rows| && rows[i].id == b.id
        ensures rows[i] == b
      {
        SameIdSameRow(rows, i, k);
      }
    }
  }

  /** Calling again after a 200 changes nothing, whatever the later lookups
      and update do, and answers the same when a lookup gets through. */
  lemma {:induction false} ConfirmIdempotent(rows: seq<Booking>, req: Request, retrieved: Option<Session>,
                                              fails: seq<bool>, updateFails: bool, fails2: seq<bool>, updateFails2: bool)
    requires forall i, j :: 0 <= i < j < |rows| ==> rows[i].id != rows[j].id
    requires Confirm(rows, req, retrieved, fails, updateFails).reply.Confirmed?
    ensures var o := Confirm(rows, req, retrieved, fails, updateFails);
      var o2 := Confirm(o.rows, req, retrieved, fails2, updateFails2);
      && o2.rows == o.rows
      && (FirstClear(fails2, 0) < MaxRetries ==> o2.reply == o.reply)
  {
    var b := ConfirmedStep(rows, req, retrieved, fails, updateFails);
    var b2 := ConfirmedLookupAfter(rows, req.sessionId, b);
    ConfirmAgain(Confirm(rows, req, retrieved, fails, updateFails).rows, req, retrieved, fails2, updateFails2, b2);
  }

  /** A 200 came from the session's single row `b`: the request passed every
      check, and the rows were updated only when `b` was unconfirmed. */
  lemma ConfirmedStep(rows: seq<Booking>, req: Request, retrieved: Option<Session>, fails: seq<bool>, updateFails: bool)
    returns (b: Booking)
    requires Confirm(rows, req, retrieved, fails, updateFails).reply.Confirmed?
    ensures req.httpMethod == "POST" && req.sessionId != "" && retrieved.Some? && retrieved.value.paymentStatus == "paid"
    ensures LookupSession(rows, req.sessionId) == One(b)
    ensures Confirm(rows, req, retrieved, fails, updateFails).reply == Confirmed(b.id)
    ensures Confirm(rows, req, retrieved, fails, updateFails).rows
      == if b.confirmed then rows else UpdateWhere(rows, b.id, MarkConfirmed)
  {
    b := Poll(rows, req.sessionId, fails).0.value;
  }

  /** A paid request whose session finds one confirmed row leaves the rows
      alone, and answers with that row once a lookup succeeds. */
  lemma ConfirmAgain(rows: seq<Booking>, req: Request, retrieved: Option<Session>, fails: seq<bool>, updateFails: bool, b: Booking)
    requires req.httpMethod == "POST" && req.sessionId != "" && retrieved.Some? && retrieved.value.paymentStatus == "paid"
    requires LookupSession(rows, req.sessionId) == One(b) && b.confirmed
    ensures Confirm(rows, req, retrieved, fails, updateFails).rows == rows
    ensures FirstClear(fails, 0) < MaxRetries ==> Confirm(rows, req, retrieved, fails, updateFails).reply == Confirmed(b.id)
  {
    if FirstClear(fails, 0) < MaxRetries {
      assert Poll(rows, req.sessionId, fails).0 == Some(b);
    } else {
      assert Poll(rows, req.sessionId, fails).0 == None;
    }
  }

  /** After the confirm step the session still finds one row: the same
      row, confirmed. */
  lemma ConfirmedLookupAfter(rows: seq<Booking>, sid: string, b: Booking) returns (b2: Booking)
    requires forall i, j :: 0 <= i < j < |rows| ==> rows[i].id != rows[j].id
    requires LookupSession(rows, sid) == One(b)
    ensures var after := if b.confirmed then rows else UpdateWhere(rows, b.id, MarkConfirmed);
      LookupSession(after, sid) == One(b2)
    ensures b2.confirmed && b2.id == b.id
  {
    if b.confirmed {
      b2 := b;
    } else {
      ConfirmedLookup(rows, sid, b);
      b2 := Apply(b, MarkConfirmed);
    }
  }

  /** The route. The store is read by the lookup loop and written at most
      once, by the confirm update; the email and SMS failures are caught. */
  method Handle(store: BookingStore, req: Request, retrieved: Option<Session>, fails: seq<bool>, updateFails: bool,
                emailFails: bool, smsFails: bool)
    returns (reply: Reply, sms: Option<Sms>)
    requires store.Valid()
    modifies store
    ensures store.Valid()
    ensures Outcome(reply, store.rows, sms) == Confirm(old(store.rows), req, retrieved, fails, updateFails)
  {
    if req.httpMethod != "POST" {
      return MethodNotAllowed, None;
    }
    if req.sessionId == "" {
      return MissingSessionId, None;
    }
    if retrieved.None? {
      return InternalError, None;
    }
    var session := retrieved.value;
    if session.paymentStatus != "paid" {
      return PaymentNotCompleted, None;
    }
    var booking, retries := WaitForBooking(store.rows, req.sessionId, fails);
    if booking.None? {
      return BookingNotFound, None;
    }
    var b := booking.value;
    if !b.confirmed {
      if updateFails {
        return ConfirmFailed, None;
      }
      store.Update(b.id, MarkConfirmed);
    }
    // The email to the owner is sent here; `emailFails` is caught and logged.
    sms := ClientSms(session.metadata, b);
    // `smsFails` and a provider refusal are caught and logged.
    reply := Confirmed(b.id);
  }
}
