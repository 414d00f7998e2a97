/** The `bookings` table as the payment routes and the dashboard use it: a
    sequence of rows held by a store object, read by session id and updated
    by row id. */
module Bookings {
  import opened Wrappers
  import opened Seqs

  /** One row of `bookings`. `details` holds the client columns the routes
      pass through without looking at them (name, phone, service, ...). */
  datatype Booking = Booking(
    id: nat,
    details: map<string, string>,
    date: Option<string>,
    startTime: Option<string>,
    endTime: Option<string>,
    paid: bool,
    confirmed: bool,
    sessionId: Option<string>)

  /** The rows carrying a checkout session id, in table order. */
  function WithSession(rows: seq<Booking>, sid: string): (r: seq<Booking>)
    ensures |r| <= |rows|
    ensures forall b :: b in r <==> b in rows && b.sessionId == Some(sid)
  {
    if rows == [] then []
    else
      var last := rows[|rows| - 1];
      WithSession(rows[..|rows| - 1], sid) + (if last.sessionId == Some(sid) then [last] else [])
  }

  /** The selection keeps table order and every copy of a matching row. */
  lemma {:induction false} WithSessionExact(rows: seq<Booking>, sid: string)
    ensures SubsequenceOf(WithSession(rows, sid), rows)
    ensures forall b: Booking :: b.sessionId == Some(sid) ==> multiset(WithSession(rows, sid))[b] == multiset(rows)[b]
  {
    if rows != [] {
      var init, last := rows[..|rows| - 1], rows[|rows| - 1];
      assert rows == init + [last];
      var w := WithSession(init, sid);
      WithSessionExact(init, sid);
      assert multiset(rows) == multiset(init) + multiset{last};
      if last.sessionId == Some(sid) {
        assert WithSession(rows, sid) == w + [last];
        assert multiset(w + [last]) == multiset(w) + multiset{last};
        SubsequenceKeepLast(w, init, last);
      } else {
        assert WithSession(rows, sid) == w;
        SubsequenceSkipLast(w, init, last);
      }
    }
  }

  /** What `.eq("session_id", sid).maybeSingle()` gives: no row, the one row,
      or an error when several rows match. */
  datatype Lookup = NoRow | One(row: Booking) | Several

  function LookupSession(rows: seq<Booking>, sid: string): (r: Lookup)
    ensures r.NoRow? <==> forall b :: b in rows ==> b.sessionId != Some(sid)
    ensures r.One? ==> r.row in rows && r.row.sessionId == Some(sid)
    ensures r.One? ==> forall b :: b in rows && b.sessionId == Some(sid) ==> b == r.row
    ensures r.Several? <==> TwoRowsWith(rows, sid)
  {
    var w := WithSession(rows, sid);
    TwoRowsWithSession(rows, sid);
    if |w| == 0 then NoRow
    else
      assert w[0] in w;
      if |w| == 1 then
        assert forall b :: b in w ==> b == w[0];
        One(w[0])
      else Several
  }

  /** Two different positions of the table carry the session id. */
  ghost predicate TwoRowsWith(rows: seq<Booking>, sid: string) {
    exists i, j :: 0 <= i < j < |rows| && rows[i].sessionId == Some(sid) && rows[j].sessionId == Some(sid)
  }

  /** The selection has two or more rows exactly when two positions match. */
  lemma TwoRowsWithSession(rows: seq<Booking>, sid: string)
    ensures |WithSession(rows, sid)| >= 2 <==> TwoRowsWith(rows, sid)
  {
    if TwoRowsWith(rows, sid) {
      var i, j :| 0 <= i < j < |rows| && rows[i].sessionId == Some(sid) && rows[j].sessionId == Some(sid);
      TwoPositionsSelected(rows, sid, i, j);
    }
    if |WithSession(rows, sid)| >= 2 {
      SelectedTwoPositions(rows, sid);
    }
  }

  /** Two matching positions give the selection two rows, even when the rows are equal. */
  lemma TwoPositionsSelected(rows: seq<Booking>, sid: string, i: nat, j: nat)
    requires i < j < |rows| && rows[i].sessionId == Some(sid) && rows[j].sessionId == Some(sid)
    ensures |WithSession(rows, sid)| >= 2
  {
    var w := WithSession(rows, sid);
    assert rows[i] in w && rows[j] in w;
    if rows[i] == rows[j] {
      assert rows == rows[..j] + rows[j..];
      assert rows[i] in rows[..j] && rows[j] in rows[j..];
      assert multiset(rows)[rows[j]] >= 2;
      WithSessionExact(rows, sid);
      assert multiset(w)[rows[j]] >= 2;
    }
  }

  /** A selection of two rows comes from two matching positions. */
  lemma {:induction false} SelectedTwoPositions(rows: seq<Booking>, sid: string)
    requires |WithSession(rows, sid)| >= 2
    ensures TwoRowsWith(rows, sid)
  {
    var init, last := rows[..|rows| - 1], rows[|rows| - 1];
    var v := WithSession(init, sid);
    if last.sessionId == Some(sid) {
      assert v[0] in v;
      var i :| 0 <= i < |init| && init[i] == v[0];
      assert rows[i] == init[i] && rows[|rows| - 1] == last;
    } else {
      SelectedTwoPositions(init, sid);
      var i, j :| 0 <= i < j < |init| && init[i].sessionId == Some(sid) && init[j].sessionId == Some(sid);
      assert rows[i] == init[i] && rows[j] == init[j];
    }
  }

  /** The `data` of that lookup: only a single match yields a row. */
  function SessionRow(rows: seq<Booking>, sid: string): Option<Booking> {
    match LookupSession(rows, sid)
    case One(b) => Some(b)
    case _ => None
  }

  /** No two rows share a checkout session id. */
  ghost predicate AtMostOnePerSession(rows: seq<Booking>) {
    forall i, j :: 0 <= i < j < |rows| && rows[i].sessionId.Some? ==> rows[i].sessionId != rows[j].sessionId
  }

  /** Under the invariant every session id has at most one row. */
  lemma {:induction false} AtMostOneRow(rows: seq<Booking>, sid: string)
    requires AtMostOnePerSession(rows)
    ensures |WithSession(rows, sid)| <= 1
  {
    if rows != [] {
      var init := rows[..|rows| - 1];
      assert AtMostOnePerSession(init);
      AtMostOneRow(init, sid);
      var last := rows[|rows| - 1];
      if last.sessionId == Some(sid) {
        forall b | b in init ensures b.sessionId != Some(sid) {
          var i :| 0 <= i < |init| && init[i] == b;
          assert rows[i] == b;
        }
        assert LookupSession(init, sid).NoRow?;
      }
    }
  }

  /** A row whose session id no row has yet keeps session ids unique. */
  lemma AppendNewSession(rows: seq<Booking>, b: Booking, sid: string)
    requires AtMostOnePerSession(rows)
    requires b.sessionId == Some(sid) && LookupSession(rows, sid).NoRow?
    ensures AtMostOnePerSession(rows + [b])
  {
    var r := rows + [b];
    forall i, j | 0 <= i < j < |r| && r[i].sessionId.Some?
      ensures r[i].sessionId != r[j].sessionId
    {
      if j == |rows| {
        assert r[i] in rows;
      }
    }
  }

  /** An `.update(patch)` payload. */
  datatype Patch =
    /** `{ confirmed: true, paid: true }` (confirm-payment). */
    | MarkConfirmed
    /** The dashboard's edit form: client columns, date, times and the paid flag. */
    | OwnerEdit(details: map<string, string>, date: string, startTime: string, endTime: string, paid: bool)

  function Apply(b: Booking, p: Patch): (r: Booking)
    ensures r.id == b.id && r.sessionId == b.sessionId
    ensures p.MarkConfirmed? ==> r.confirmed && r.paid && r.(confirmed := b.confirmed, paid := b.paid) == b
    ensures p.OwnerEdit? ==> r.confirmed == b.confirmed && r.paid == p.paid
    ensures p.OwnerEdit? ==> r.date == Some(p.date) && r.startTime == Some(p.startTime) && r.endTime == Some(p.endTime)
    ensures p.OwnerEdit? ==>
      && r.details.Keys == b.details.Keys + p.details.Keys
      && (forall k :: k in p.details ==> r.details[k] == p.details[k])
      && (forall k :: k in b.details && k !in p.details ==> r.details[k] == b.details[k])
  {
    match p
    case MarkConfirmed => b.(confirmed := true, paid := true)
    case OwnerEdit(details, date, start, end, paid) =>
      b.(details := b.details + details, date := Some(date), startTime := Some(start),
         endTime := Some(end), paid := paid)
  }

  /** `.update(patch).eq("id", id)`: every row with that id is patched, the others kept. */
  function UpdateWhere(rows: seq<Booking>, id: nat, p: Patch): (r: seq<Booking>)
    ensures |r| == |rows|
    ensures forall i :: 0 <= i < |r| ==> r[i].id == rows[i].id && r[i].sessionId == rows[i].sessionId
    ensures forall i :: 0 <= i < |r| && rows[i].id != id ==> r[i] == rows[i]
  {
    seq(|rows|, i requires 0 <= i < |rows| => if rows[i].id == id then Apply(rows[i], p) else rows[i])
  }

  /** With distinct ids, two positions holding the same id are one position. */
  lemma SameIdSameRow(rows: seq<Booking>, i: nat, k: nat)
    requires forall i, j :: 0 <= i < j < |rows| ==> rows[i].id != rows[j].id
    requires i < |rows| && k < |rows| && rows[i].id == rows[k].id
    ensures i == k
  {
  }

  /** Confirming a row twice is the same as confirming it once. */
  lemma ConfirmIdempotent(rows: seq<Booking>, id: nat)
    ensures UpdateWhere(UpdateWhere(rows, id, MarkConfirmed), id, MarkConfirmed) == UpdateWhere(rows, id, MarkConfirmed)
  {
    var once := UpdateWhere(rows, id, MarkConfirmed);
    forall i | 0 <= i < |rows| ensures UpdateWhere(once, id, MarkConfirmed)[i] == once[i] {
    }
  }

  /** Patching keeps every row's id and session id, so it keeps session ids unique. */
  lemma UpdateKeepsSessions(rows: seq<Booking>, id: nat, p: Patch)
    requires AtMostOnePerSession(rows)
    ensures AtMostOnePerSession(UpdateWhere(rows, id, p))
  {
    var r := UpdateWhere(rows, id, p);
    assert forall i :: 0 <= i < |rows| ==> r[i].sessionId == rows[i].sessionId;
  }

  /** After the one row of a session is confirmed, the session's lookup finds it confirmed and paid. */
  lemma {:induction false} ConfirmedLookup(rows: seq<Booking>, sid: string, b: Booking)
    requires forall i, j :: 0 <= i < j < |rows| ==> rows[i].id != rows[j].id
    requires LookupSession(rows, sid) == One(b)
    ensures LookupSession(UpdateWhere(rows, b.id, MarkConfirmed), sid) == One(Apply(b, MarkConfirmed))
  {
    var after := UpdateWhere(rows, b.id, MarkConfirmed);
    var w := WithSession(rows, sid);
    assert |w| == 1 && w[0] == b;
    SessionsAfterConfirm(rows, sid, b.id);
  }

  /** Confirming rows by id confirms exactly the session rows with that id. */
  lemma {:induction false} SessionsAfterConfirm(rows: seq<Booking>, sid: string, id: nat)
    ensures WithSession(UpdateWhere(rows, id, MarkConfirmed), sid) == UpdateWhere(WithSession(rows, sid), id, MarkConfirmed)
  {
    if rows != [] {
      var init, last := rows[..|rows| - 1], rows[|rows| - 1];
      var w := WithSession(init, sid);
      var tail := if last.sessionId == Some(sid) then [last] else [];
      assert rows == init + [last];
      UpdateWhereAppend(init, [last], id, MarkConfirmed);
      UpdateWhereAppend(w, tail, id, MarkConfirmed);
      var after := UpdateWhere(rows, id, MarkConfirmed);
      assert after[..|after| - 1] == UpdateWhere(init, id, MarkConfirmed);
      SessionsAfterConfirm(init, sid, id);
    }
  }

  /** An update by id works row by row, so it distributes over concatenation. */
  lemma UpdateWhereAppend(a: seq<Booking>, b: seq<Booking>, id: nat, p: Patch)
    ensures UpdateWhere(a + b, id, p) == UpdateWhere(a, id, p) + UpdateWhere(b, id, p)
  {
  }

  /** The store object: the rows and the next id the table will assign. */
  class BookingStore {
    var rows: seq<Booking>
    var nextId: nat

    /** Ids are distinct and below the next id to assign. */
    ghost predicate Valid()
      reads this
    {
      && (forall i :: 0 <= i < |rows| ==> rows[i].id < nextId)
      && (forall i, j :: 0 <= i < j < |rows| ==> rows[i].id != rows[j].id)
    }

    constructor ()
      ensures Valid() && rows == []
    {
      rows := [];
      nextId := 0;
    }

    /** `.insert([row])`: the row is appended under a fresh id. */
    method Insert(row: Booking) returns (id: nat)
      requires Valid()
      modifies this
      ensures Valid()
      ensures id == old(nextId) && rows == old(rows) + [row.(id := id)]
      ensures forall b :: b in old(rows) ==> b.id != id
    {
      id := nextId;
      rows := rows + [row.(id := id)];
      nextId := nextId + 1;
    }

    /** `.update(patch).eq("id", id)`. */
    method Update(id: nat, p: Patch)
      requires Valid()
      modifies this
      ensures Valid() && nextId == old(nextId)
      ensures rows == UpdateWhere(old(rows), id, p)
    {
      rows := UpdateWhere(rows, id, p);
    }
  }
}

/** The checkout session as the payment provider reports it, and the SMS a
    route asks the text-message provider to send. */
module Checkout {
  import opened Text

  /** `session.id`, `session.payment_status` and `session.metadata` (string values). */
  datatype Session = Session(id: string, paymentStatus: string, metadata: map<string, string>)

  datatype Sms = Sms(phone: string, message: string)

  /** `md.key?.trim()`, with a missing key read as empty (both fail `!x`
      and `x || d`). */
  function Field(md: map<string, string>, key: string): string {
    if key in md then Trim(md[key]) else ""
  }
}
