/** The route that texts a client when the owner moves their appointment:
    a guard on the method and the required fields, a message naming the
    new date and the new time only when they changed, and the reply the
    text-message provider's answer decides. */
module UpdateSms {
  import opened Wrappers
  import opened Text
  import opened Js
  import opened TimeLabels

  /** The request: its method and the body fields the route reads. */
  datatype Request = Request(httpMethod: string, phone: Value, name: Value,
                             oldDate: Value, oldTime: Value, newDate: Value, newTime: Value)

  /** The provider's answer: `success`, a refusal, or a request that throws. */
  datatype ProviderAnswer = Delivered | Refused(error: string) | Unreachable

  datatype Reply =
    | MethodNotAllowed
    | MissingRequiredFields
    | Sent
    | ProviderError(error: string)
    | SendFailed
    /** A non-string new time cannot be split; the error escapes the handler. */
    | Crashed

  function Status(r: Reply): nat {
    match r
    case MethodNotAllowed => 405
    case MissingRequiredFields => 400
    case Sent => 200
    case ProviderError(_) => 500
    case SendFailed => 500
    case Crashed => 500
  }

  /** The route's `formatTime`: empty for a falsy value, the 12-hour display
      of a string, and no result for another value (`split` throws). */
  function DisplayTime(v: Value): (r: Option<string>)
    ensures !Truthy(v) ==> r == Some("")
    ensures v.Str? ==> r == Some(FormatTime(v.s))
    ensures r.None? <==> Truthy(v) && !v.Str?
  {
    if !Truthy(v) then Some("")
    else if v.Str? then Some(FormatTime(v.s))
    else None
  }

  /** A clock `HH:mm...` displays as the 12-hour hour, the minute text and
      AM or PM, PM exactly from noon on. */
  lemma DisplayTimeOfClock(h: nat, minuteText: string, rest: string)
    requires h < 24 && ':' !in minuteText
    requires rest == "" || rest[0] == ':'
    ensures DisplayTime(Str(Pad2(h) + ":" + minuteText + rest))
      == Some(NatText(if h % 12 == 0 then 12 else h % 12) + ":" + minuteText + (if h >= 12 then "PM" else "AM"))
  {
    FormatTimeOfClock(h, minuteText, rest);
  }

  /** One piece of the message. */
  datatype Part = GreetingPart(name: Value) | DatePart(dateText: string) | TimePart(timeText: string) | FooterPart

  /** The text of a piece. */
  function PartText(p: Part): string {
    match p
    case GreetingPart(name) => "Hi " + ToText(name) + "! Your appointment with Mya has been updated:\n\n"
    case DatePart(d) => "\U{1F4C5} New Date: " + d + "\n"
    case TimePart(t) => "\U{1F550} New Time: " + t + "\n"
    case FooterPart =>
      "\n\U{1F4CD} Address: 2080 E. Flamingo Rd. Suite #106 Room 4, Las Vegas, Nevada\n\n"
      + "DM @myasnailsbaby if you have any questions! \U{1F496}"
  }

  /** The pieces of the message in order: the greeting, the date line when
      the date changed, the time line when the time changed, the footer.
      `formatDate` is the locale date text of a date value. No pieces when
      the time line cannot be formatted. */
  function MessageParts(req: Request, formatDate: Value -> string): Option<seq<Part>> {
    var dateParts := if !StrictEquals(req.oldDate, req.newDate) then [DatePart(formatDate(req.newDate))] else [];
    if StrictEquals(req.oldTime, req.newTime) then
      Some([GreetingPart(req.name)] + dateParts + [FooterPart])
    else match DisplayTime(req.newTime)
      case None => None
      case Some(t) => Some([GreetingPart(req.name)] + dateParts + [TimePart(t)] + [FooterPart])
  }

  /** The pieces' texts written one after the other. */
  function Render(parts: seq<Part>): string {
    if parts == [] then "" else PartText(parts[0]) + Render(parts[1..])
  }

  lemma {:induction false} RenderAppend(a: seq<Part>, b: seq<Part>)
    ensures Render(a + b) == Render(a) + Render(b)
  {
    if a != [] {
      assert (a + b)[1..] == a[1..] + b;
      RenderAppend(a[1..], b);
    } else {
      assert a + b == b;
    }
  }

  /** The greeting opens and the footer closes the message; there is a date
      line exactly when the date changed, naming the new date, and a time
      line exactly when the time changed, naming the new time; the date line
      comes before the time line. */
  lemma MessagePartsShape(req: Request, formatDate: Value -> string)
    requires MessageParts(req, formatDate).Some?
    ensures var parts := MessageParts(req, formatDate).value;
      && |parts| >= 2 && parts[0] == GreetingPart(req.name) && parts[|parts| - 1] == FooterPart
      && (forall i :: 0 <= i < |parts| && parts[i].DatePart? ==> parts[i].dateText == formatDate(req.newDate))
      && (forall i :: 0 <= i < |parts| && parts[i].TimePart? ==> Some(parts[i].timeText) == DisplayTime(req.newTime))
      && ((exists i :: 0 <= i < |parts| && parts[i].DatePart?) <==> !StrictEquals(req.oldDate, req.newDate))
      && ((exists i :: 0 <= i < |parts| && parts[i].TimePart?) <==> !StrictEquals(req.oldTime, req.newTime))
      && (forall i, j :: 0 <= i < |parts| && 0 <= j < |parts| && parts[i].DatePart? && parts[j].TimePart? ==> i < j)
  {
    var dates := if !StrictEquals(req.oldDate, req.newDate) then [DatePart(formatDate(req.newDate))] else [];
    var times := if StrictEquals(req.oldTime, req.newTime) then [] else [TimePart(DisplayTime(req.newTime).value)];
    assert MessageParts(req, formatDate).value == [GreetingPart(req.name)] + dates + times + [FooterPart];
    PartsLayout(req.name, dates, times);
  }

  /** The layout of a greeting, at most one date line, at most one time line and the footer. */
  lemma PartsLayout(name: Value, dates: seq<Part>, times: seq<Part>)
    requires dates == [] || (|dates| == 1 && dates[0].DatePart?)
    requires times == [] || (|times| == 1 && times[0].TimePart?)
    ensures var parts := [GreetingPart(name)] + dates + times + [FooterPart];
      && |parts| >= 2 && parts[0] == GreetingPart(name) && parts[|parts| - 1] == FooterPart
      && (forall i :: 0 <= i < |parts| && parts[i].DatePart? ==> parts[i] == dates[0])
      && (forall i :: 0 <= i < |parts| && parts[i].TimePart? ==> parts[i] == times[0])
      && ((exists i :: 0 <= i < |parts| && parts[i].DatePart?) <==> dates != [])
      && ((exists i :: 0 <= i < |parts| && parts[i].TimePart?) <==> times != [])
      && (forall i, j :: 0 <= i < |parts| && 0 <= j < |parts| && parts[i].DatePart? && parts[j].TimePart? ==> i < j)
  {
    var parts := [GreetingPart(name)] + dates + times + [FooterPart];
    var n := |dates|;
    forall i | 0 <= i < |parts|
      ensures (parts[i].DatePart? ==> i == 1 && n == 1 && parts[i] == dates[0])
      ensures (parts[i].TimePart? ==> i == 1 + n && parts[i] == times[0])
    {
      if 1 <= i < 1 + n {
        assert parts[i] == dates[i - 1];
      } else if 1 + n <= i < 1 + n + |times| {
        assert parts[i] == times[i - 1 - n];
      }
    }
    if dates != [] {
      assert parts[1] == dates[0];
    }
    if times != [] {
      assert parts[1 + n] == times[0];
    }
  }

  /** The message the route builds by successive appends. */
  method BuildMessage(req: Request, formatDate: Value -> string) returns (message: Option<string>)
    ensures message.Some? <==> MessageParts(req, formatDate).Some?
    ensures message.Some? ==> message.value == Render(MessageParts(req, formatDate).value)
  {
    var m := PartText(GreetingPart(req.name));
    ghost var parts := [GreetingPart(req.name)];
    RenderOne(GreetingPart(req.name));
    if !StrictEquals(req.oldDate, req.newDate) {
      var line := DatePart(formatDate(req.newDate));
      m, parts := Append(m, parts, line);
    }
    if !StrictEquals(req.oldTime, req.newTime) {
      var t := DisplayTime(req.newTime);
      if t.None? {
        return None;
      }
      m, parts := Append(m, parts, TimePart(t.value));
    }
    m, parts := Append(m, parts, FooterPart);
    assert parts == MessageParts(req, formatDate).value;
    return Some(m);
  }

  /** `message += text`, with the pieces written so far. */
  method Append(m: string, ghost parts: seq<Part>, p: Part) returns (m': string, ghost parts': seq<Part>)
    requires m == Render(parts)
    ensures parts' == parts + [p] && m' == Render(parts')
  {
    RenderAppend(parts, [p]);
    RenderOne(p);
    m' := m + PartText(p);
    parts' := parts + [p];
  }

  lemma RenderOne(p: Part)
    ensures Render([p]) == PartText(p)
  {
    var one := [p];
    assert one[1..] == [] && Render(one[1..]) == "";
  }

  /** A text to the client: the phone value and the message. */
  datatype TextMessage = TextMessage(phone: Value, message: string)

  /** The handler: the reply and the text handed to the provider, if any. */
  function Handle(req: Request, formatDate: Value -> string, answer: ProviderAnswer): (r: (Reply, Option<TextMessage>))
    ensures req.httpMethod != "POST" ==> r == (MethodNotAllowed, None)
    ensures req.httpMethod == "POST" && (!Truthy(req.phone) || !Truthy(req.name)) ==> r == (MissingRequiredFields, None)
    ensures Status(r.0) == 200 <==>
      req.httpMethod == "POST" && Truthy(req.phone) && Truthy(req.name)
      && MessageParts(req, formatDate).Some? && answer.Delivered?
    ensures r.1.Some? <==> req.httpMethod == "POST" && Truthy(req.phone) && Truthy(req.name) && MessageParts(req, formatDate).Some?
    ensures r.1.Some? ==> r.1.value.phone == req.phone && r.1.value.message == Render(MessageParts(req, formatDate).value)
    ensures req.httpMethod == "POST" && Truthy(req.phone) && Truthy(req.name) ==>
      && (MessageParts(req, formatDate).None? ==> r.0 == Crashed)
      && (MessageParts(req, formatDate).Some? && answer.Delivered? ==> r.0 == Sent)
      && (MessageParts(req, formatDate).Some? && answer.Refused? ==> r.0 == ProviderError(answer.error))
      && (MessageParts(req, formatDate).Some? && answer.Unreachable? ==> r.0 == SendFailed)
  {
    if req.httpMethod != "POST" then (MethodNotAllowed, None)
    else if !Truthy(req.phone) || !Truthy(req.name) then (MissingRequiredFields, None)
    else match MessageParts(req, formatDate)
      case None => (Crashed, None)
      case Some(parts) =>
        var text := TextMessage(req.phone, Render(parts));
        match answer
        case Delivered => (Sent, Some(text))
        case Refused(e) => (ProviderError(e), Some(text))
        case Unreachable => (SendFailed, Some(text))
  }
}
