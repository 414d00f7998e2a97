/** The public booking page: the open slots it offers (availability minus
    the slots already booked), the dates and times it lists, and the two
    requests its form sends, which share one generated booking id. */
module PublicBooking {
  import opened Wrappers
  import opened Text
  import opened Js
  import opened Seqs
  import opened TimeLabels
  import opened Checkout
  import opened StripeWebhook

  /** One `availability` row as the page reads it: its `date` and `time` fields. */
  datatype AvailabilitySlot = AvailabilitySlot(date: Value, time: Value)

  /** One row of `bookings.select("date, time")`. */
  datatype BookedTime = BookedTime(date: Value, time: Value)

  /** `b.date === slot.date && b.time === slot.time`. */
  predicate Takes(b: BookedTime, s: AvailabilitySlot) {
    StrictEquals(b.date, s.date) && StrictEquals(b.time, s.time)
  }

  /** `bookingsData.some(...)`. */
  predicate IsBooked(bookings: seq<BookedTime>, s: AvailabilitySlot) {
    exists b :: b in bookings && Takes(b, s)
  }

  /** The slots `fetchAvailability` keeps: those no booking takes, in the order read. */
  function OpenSlots(slots: seq<AvailabilitySlot>, bookings: seq<BookedTime>): (r: seq<AvailabilitySlot>)
    ensures forall s :: s in r <==> s in slots && !IsBooked(bookings, s)
    ensures forall s: AvailabilitySlot :: !IsBooked(bookings, s) ==> multiset(r)[s] == multiset(slots)[s]
    ensures SubsequenceOf(r, slots)
  {
    if slots == [] then []
    else
      assert slots == [slots[0]] + slots[1..];
      if IsBooked(bookings, slots[0]) then OpenSlots(slots[1..], bookings)
      else [slots[0]] + OpenSlots(slots[1..], bookings)
  }

  /** `fetchAvailability`: when either read fails the offered slots stay as they were. */
  function AfterFetchAvailability(current: seq<AvailabilitySlot>,
                                  slots: Result<seq<AvailabilitySlot>, string>,
                                  bookings: Result<seq<BookedTime>, string>): (r: seq<AvailabilitySlot>)
    ensures slots.Err? || bookings.Err? ==> r == current
    ensures slots.Ok? && bookings.Ok? ==>
      SubsequenceOf(r, slots.value) && forall s :: s in r <==> s in slots.value && !IsBooked(bookings.value, s)
    ensures slots.Ok? && bookings.Ok? ==> r == OpenSlots(slots.value, bookings.value)
  {
    if slots.Err? || bookings.Err? then current else OpenSlots(slots.value, bookings.value)
  }

  /** A kept slot is taken by no booking, and a slot is dropped only when a booking takes it. */
  lemma OpenSlotsExact(slots: seq<AvailabilitySlot>, bookings: seq<BookedTime>, s: AvailabilitySlot)
    requires s in slots
    ensures s in OpenSlots(slots, bookings) <==> forall b :: b in bookings ==> !Takes(b, s)
  {
  }

  // ---------------------------------------------------------------------
  // The date list and the time options
  // ---------------------------------------------------------------------

  /** The position of the first occurrence of `x`; `|xs|` when it does not occur. */
  function FirstIndex(xs: seq<Value>, x: Value): (i: nat)
    ensures i <= |xs| && (i < |xs| <==> x in xs)
    ensures i < |xs| ==> xs[i] == x
    ensures forall j :: 0 <= j < i ==> xs[j] != x
  {
    if xs == [] then 0 else if xs[0] == x then 0 else 1 + FirstIndex(xs[1..], x)
  }

  /** A first occurrence in a prefix is the first occurrence in the whole sequence. */
  lemma FirstIndexPrefix(xs: seq<Value>, n: nat, x: Value)
    requires n <= |xs| && x in xs[..n]
    ensures FirstIndex(xs[..n], x) == FirstIndex(xs, x)
  {
    var k, k2 := FirstIndex(xs[..n], x), FirstIndex(xs, x);
    assert xs[k] == xs[..n][k] == x;
    assert forall j :: 0 <= j < k ==> xs[j] == xs[..n][j];
  }

  /** `[...new Set(xs)]`: each value once, in the order of first appearance. */
  function Distinct(xs: seq<Value>): (r: seq<Value>)
    ensures forall x :: x in r <==> x in xs
    ensures forall i, j :: 0 <= i < j < |r| ==> r[i] != r[j]
    ensures forall i, j :: 0 <= i < j < |r| ==> FirstIndex(xs, r[i]) < FirstIndex(xs, r[j])
  {
    if xs == [] then []
    else
      var d := Distinct(xs[..|xs| - 1]);
      DistinctExtend(xs, d);
      if xs[|xs| - 1] in d then d else d + [xs[|xs| - 1]]
  }

  /** The step of `Distinct`: the values of all but the last element,
      extended by the last one when it is new. */
  lemma DistinctExtend(xs: seq<Value>, d: seq<Value>)
    requires xs != []
    requires forall x :: x in d <==> x in xs[..|xs| - 1]
    requires forall i, j :: 0 <= i < j < |d| ==> d[i] != d[j]
    requires forall i, j :: 0 <= i < j < |d| ==> FirstIndex(xs[..|xs| - 1], d[i]) < FirstIndex(xs[..|xs| - 1], d[j])
    ensures var r := if xs[|xs| - 1] in d then d else d + [xs[|xs| - 1]];
      && (forall x :: x in r <==> x in xs)
      && (forall i, j :: 0 <= i < j < |r| ==> r[i] != r[j])
      && (forall i, j :: 0 <= i < j < |r| ==> FirstIndex(xs, r[i]) < FirstIndex(xs, r[j]))
  {
    var init, last := xs[..|xs| - 1], xs[|xs| - 1];
    assert xs == init + [last];
    FirstIndicesInPrefix(xs, d);
    if last !in d {
      var r := d + [last];
      assert FirstIndex(xs, last) == |xs| - 1;
      forall i, j | 0 <= i < j < |r|
        ensures r[i] != r[j] && FirstIndex(xs, r[i]) < FirstIndex(xs, r[j])
      {
        if j == |d| {
          assert r[i] == d[i] && r[i] in d;
        } else {
          assert r[i] == d[i] && r[j] == d[j];
        }
      }
    }
  }

  /** The values of a prefix first occur inside that prefix, at the same place. */
  lemma FirstIndicesInPrefix(xs: seq<Value>, d: seq<Value>)
    requires xs != []
    requires forall x :: x in d ==> x in xs[..|xs| - 1]
    ensures forall i :: 0 <= i < |d| ==> FirstIndex(xs, d[i]) == FirstIndex(xs[..|xs| - 1], d[i])
    ensures forall i :: 0 <= i < |d| ==> FirstIndex(xs, d[i]) < |xs| - 1
  {
    var init := xs[..|xs| - 1];
    forall i | 0 <= i < |d|
      ensures FirstIndex(xs, d[i]) == FirstIndex(init, d[i]) && FirstIndex(init, d[i]) < |init|
    {
      assert d[i] in d;
      FirstIndexPrefix(xs, |xs| - 1, d[i]);
    }
  }

  /** `availability.map((slot) => slot.date)`. */
  function Dates(slots: seq<AvailabilitySlot>): (r: seq<Value>)
    ensures |r| == |slots| && forall i :: 0 <= i < |r| ==> r[i] == slots[i].date
  {
    seq(|slots|, i requires 0 <= i < |slots| => slots[i].date)
  }

  /** `availableDates`: every offered date once, in the order it is first offered. */
  function AvailableDates(slots: seq<AvailabilitySlot>): (r: seq<Value>)
    ensures forall d :: d in r <==> exists s :: s in slots && s.date == d
    ensures forall i, j :: 0 <= i < j < |r| ==> r[i] != r[j]
    ensures forall i, j :: 0 <= i < j < |r| ==> FirstIndex(Dates(slots), r[i]) < FirstIndex(Dates(slots), r[j])
  {
    var dates := Dates(slots);
    assert forall d :: d in dates <==> exists s :: s in slots && s.date == d by {
      forall d ensures d in dates ==> exists s :: s in slots && s.date == d {
        if d in dates {
          var i :| 0 <= i < |dates| && dates[i] == d;
          assert slots[i] in slots;
        }
      }
      forall s | s in slots ensures s.date in dates {
        var i :| 0 <= i < |slots| && slots[i] == s;
        assert dates[i] == s.date;
      }
    }
    Distinct(dates)
  }

  /** The slots offered on the selected date, in order. */
  function OnDate(slots: seq<AvailabilitySlot>, selected: string): (r: seq<AvailabilitySlot>)
    ensures forall s :: s in r <==> s in slots && StrictEquals(s.date, Str(selected))
    ensures forall s: AvailabilitySlot :: StrictEquals(s.date, Str(selected)) ==> multiset(r)[s] == multiset(slots)[s]
    ensures SubsequenceOf(r, slots)
  {
    if slots == [] then []
    else
      assert slots == [slots[0]] + slots[1..];
      if StrictEquals(slots[0].date, Str(selected)) then [slots[0]] + OnDate(slots[1..], selected)
      else OnDate(slots[1..], selected)
  }

  /** `timeOptions`: the times of the slots on the selected date, in the order offered. */
  function TimeOptions(slots: seq<AvailabilitySlot>, selected: string): (r: seq<Value>)
    ensures var on := OnDate(slots, selected);
      |r| == |on| && forall i :: 0 <= i < |r| ==> r[i] == on[i].time
    ensures forall t :: t in r <==> exists s :: s in slots && s.date == Str(selected) && s.time == t
  {
    var on := OnDate(slots, selected);
    var r := seq(|on|, i requires 0 <= i < |on| => on[i].time);
    assert forall t :: t in r <==> exists s :: s in on && s.time == t by {
      forall t | t in r ensures exists s :: s in on && s.time == t {
        var i :| 0 <= i < |r| && r[i] == t;
        assert on[i] in on;
      }
      forall s | s in on ensures s.time in r {
        var i :| 0 <= i < |on| && on[i] == s;
        assert r[i] == s.time;
      }
    }
    r
  }

  // ---------------------------------------------------------------------
  // The booking form's two requests
  // ---------------------------------------------------------------------

  /** The form fields `handleSubmit` reads. */
  datatype BookingForm = BookingForm(
    name: string, instagram: string, phone: string, service: string, artLevel: string,
    date: string, time: string, notes: string, returning: string, referral: string)

  /** The body posted to `/api/book`: the generated id and the form. */
  datatype BookPayload = BookPayload(id: string, form: BookingForm)

  /** The body posted to `/api/create-checkout-session`. */
  datatype CheckoutRequest = CheckoutRequest(bookingId: string, bookingMetadata: BookingForm)

  /** What `handleSubmit` sends: the booking request always, and the checkout
      request only when the booking request reported success. */
  datatype Submission = Submission(book: BookPayload, checkout: Option<CheckoutRequest>)

  /** `handleSubmit` with the generated id `bookingId` and the outcome of `/api/book`. */
  function Submit(bookingId: string, form: BookingForm, bookSucceeded: bool): (r: Submission)
    ensures r.book.id == bookingId && r.book.form == form
    ensures r.checkout.Some? <==> bookSucceeded
    ensures r.checkout.Some? ==> r.checkout.value.bookingId == r.book.id && r.checkout.value.bookingMetadata == r.book.form
  {
    var payload := BookPayload(bookingId, form);
    Submission(payload, if bookSucceeded then Some(CheckoutRequest(payload.id, payload.form)) else None)
  }

  // ---------------------------------------------------------------------
  // From the checkout request to the webhook's metadata
  // ---------------------------------------------------------------------

  /** The session metadata the checkout route builds from the request: the
      booking id and the form fields under the form's names, the start time
      under `time`. */
  function SessionMetadata(req: CheckoutRequest): map<string, string> {
    var f := req.bookingMetadata;
    map["booking_id" := req.bookingId, "name" := f.name, "instagram" := f.instagram,
        "phone" := f.phone, "service" := f.service, "artLevel" := f.artLevel,
        "date" := f.date, "time" := f.time, "notes" := f.notes,
        "returning" := f.returning, "referral" := f.referral]
  }

  /** The webhook looks for `start_time`, which that metadata never holds, so
      every session started from the booking page is refused. */
  lemma SessionMetadataRefused(req: CheckoutRequest)
    ensures ValidateMetadata(SessionMetadata(req)) == Err(MissingDateOrStart)
  {
    assert "start_time" !in SessionMetadata(req);
  }

  /** The metadata with the start time also under `start_time`, the key the webhook reads. */
  function SessionMetadataFixed(req: CheckoutRequest): (md: map<string, string>)
    ensures forall k :: k in SessionMetadata(req) ==> k in md && md[k] == SessionMetadata(req)[k]
    ensures "start_time" in md && md["start_time"] == req.bookingMetadata.time
  {
    SessionMetadata(req)["start_time" := req.bookingMetadata.time]
  }

  /** With the start under `start_time`, a booking-page session with a date
      and a 12-hour label is accepted, and the slot starts at the converted
      label and ends two hours later on the 24-hour clock (the booking page
      sends no duration). */
  lemma SessionMetadataFixedAccepted(req: CheckoutRequest, l: Label12, ws: string, ap: string, h: nat, m: nat)
    requires WellFormed(l) && AllSpace(ws) && Meridiem(ap) == Some(l.pm)
    requires h == Hour24(l) && m == Minute(l) && m < 60
    requires Trim(req.bookingMetadata.date) != ""
    requires Trim(req.bookingMetadata.time) == StrictText(l) + ws + ap
    ensures var v := ValidateMetadata(SessionMetadataFixed(req));
      && v.Ok?
      && v.value.start24 == ClockText(h, m)
      && v.value.end24 == ClockText((h + 2) % 24, m)
  {
    FixedMetadataFields(req);
    LabelMetadataAccepted(SessionMetadataFixed(req), l, ws, ap, h, m);
  }

  /** The fields the webhook reads from the corrected metadata. */
  lemma FixedMetadataFields(req: CheckoutRequest)
    ensures var md := SessionMetadataFixed(req);
      && Field(md, "date") == Trim(req.bookingMetadata.date)
      && Field(md, "start_time") == Trim(req.bookingMetadata.time)
      && "duration" !in md
  {
    var md := SessionMetadataFixed(req);
    assert "date" in md && md["date"] == req.bookingMetadata.date;
    assert "start_time" in md && md["start_time"] == req.bookingMetadata.time;
  }

  /** Metadata with a date, a 12-hour start label (hour `h`, minute `m` on
      the 24-hour clock) and no duration is accepted for two hours. */
  lemma LabelMetadataAccepted(md: map<string, string>, l: Label12, ws: string, ap: string, h: nat, m: nat)
    requires WellFormed(l) && AllSpace(ws) && Meridiem(ap) == Some(l.pm)
    requires h == Hour24(l) && m == Minute(l) && m < 60
    requires Field(md, "date") != "" && Field(md, "start_time") == StrictText(l) + ws + ap
    requires "duration" !in md
    ensures var v := ValidateMetadata(md);
      && v.Ok?
      && v.value.start24 == ClockText(h, m)
      && v.value.end24 == ClockText((h + 2) % 24, m)
  {
    NoDurationTwoHours(md);
    ValidateLabel(md, l, ws, ap, h, m);
  }

  /** Without a duration the webhook books two hours. */
  lemma NoDurationTwoHours(md: map<string, string>)
    requires "duration" !in md
    ensures HoursToAdd(DurationArg(md)) == 2
  {
  }
}
