/**
 The bulk-upload driver: one CSV buffer per tenant, handed to exactly one upload when it
 is full or when the driver is flushed. What the platform reads back from the uploads, in
 order, is what was submitted.
 */
module CsvUpload {

  import opened Csv

  /** A wall-clock instant in some zone; the offset from UTC is in seconds. */
  datatype Time = Time(year: int, month: nat, day: nat, hour: nat, minute: nat, second: nat, offset: int)

  datatype Event = Event(eventID: string, occurredAt: Time, tenantID: string, customerID: string,
                         subscriptionID: string, productType: string, metricName: string)

  // ----- Timestamps: the layout 2006-01-02T15:04:05Z07:00 -----

  function Digit(n: nat): char
    requires n < 10
  {
    "0123456789"[n]
  }

  /** Decimal digits, with leading zeros up to the width. */
  function Padded(n: nat, width: nat): string
    decreases n, width
  {
    if n == 0 && width == 0 then ""
    else Padded(n / 10, if width == 0 then 0 else width - 1) + [Digit(n % 10)]
  }

  function Magnitude(x: int): nat {
    if x < 0 then -x else x
  }

  function FormatZone(offset: int): string {
    if offset == 0 then "Z"
    else
      var minutes := Magnitude(offset) / 60;
      (if offset <= -60 then "-" else "+") + Padded(minutes / 60, 2) + ":" + Padded(minutes % 60, 2)
  }

  function FormatDate(t: Time): string {
    (if t.year < 0 then "-" else "") + Padded(Magnitude(t.year), 4) + "-" + Padded(t.month, 2) + "-" + Padded(t.day, 2)
  }

  function FormatClock(t: Time): string {
    "T" + Padded(t.hour, 2) + ":" + Padded(t.minute, 2) + ":" + Padded(t.second, 2)
  }

  function FormatTime(t: Time): string {
    FormatDate(t) + FormatClock(t) + FormatZone(t.offset)
  }

  lemma {:induction false} PaddedIsPlain(n: nat, width: nat)
    ensures IsPlain(Padded(n, width))
    decreases n, width
  {
    if n != 0 || width != 0 {
      PaddedIsPlain(n / 10, if width == 0 then 0 else width - 1);
      DigitIsPlain(n % 10);
    }
  }

  lemma {:induction false} DigitIsPlain(n: nat)
    requires n < 10
    ensures !Special(Digit(n))
  {
  }

  lemma {:induction false} PlainConcat(a: string, b: string)
    requires IsPlain(a) && IsPlain(b)
    ensures IsPlain(a + b)
  {
  }

  lemma {:induction false} DateIsPlain(t: Time)
    ensures IsPlain(FormatDate(t))
  {
    PaddedIsPlain(Magnitude(t.year), 4);
    PaddedIsPlain(t.month, 2);
    PaddedIsPlain(t.day, 2);
  }

  lemma {:induction false} ClockIsPlain(t: Time)
    ensures IsPlain(FormatClock(t))
  {
    PaddedIsPlain(t.hour, 2);
    PaddedIsPlain(t.minute, 2);
    PaddedIsPlain(t.second, 2);
  }

  /** Why the driver need not escape a timestamp. */
  lemma {:induction false} TimeIsPlain(t: Time)
    ensures IsPlain(FormatTime(t))
  {
    DateIsPlain(t);
    ClockIsPlain(t);
    ZoneIsPlain(t.offset);
    PlainConcat(FormatDate(t), FormatClock(t));
    PlainConcat(FormatDate(t) + FormatClock(t), FormatZone(t.offset));
  }

  lemma {:induction false} ZoneIsPlain(offset: int)
    ensures IsPlain(FormatZone(offset))
  {
    var minutes := Magnitude(offset) / 60;
    PaddedIsPlain(minutes / 60, 2);
    PaddedIsPlain(minutes % 60, 2);
  }

  function Pow10(k: nat): nat {
    if k == 0 then 1 else 10 * Pow10(k - 1)
  }

  /** The number that a text of digits writes. */
  function Value(digits: string): int {
    if digits == "" then 0
    else Value(digits[..|digits| - 1]) * 10 + (digits[|digits| - 1] as int - '0' as int)
  }

  /** A number that fits is written in exactly that many digits, and reads back. */
  lemma {:induction false} PaddedReadsBack(n: nat, width: nat)
    requires n < Pow10(width)
    ensures |Padded(n, width)| == width && Value(Padded(n, width)) == n
    decreases n, width
  {
    if width > 0 {
      PaddedReadsBack(n / 10, width - 1);
      var front := Padded(n / 10, width - 1);
      assert Padded(n, width)[..width - 1] == front;
    }
  }

  /** The text has the digits of n at this place. */
  ghost predicate Writes(s: string, at: nat, width: nat, n: nat) {
    at + width <= |s| && Value(s[at..at + width]) == n
  }

  ghost predicate Ordinary(t: Time) {
    0 <= t.year < 10_000 && t.month < 100 && t.day < 100 && t.hour < 100 && t.minute < 100 && t.second < 100 && -360_000 < t.offset < 360_000
  }

  lemma {:induction false} DateReadsBack(t: Time)
    requires Ordinary(t)
    ensures var d := FormatDate(t);
            |d| == 10 && Writes(d, 0, 4, t.year) && d[4] == '-' && Writes(d, 5, 2, t.month) && d[7] == '-' && Writes(d, 8, 2, t.day)
  {
    var y, m, d := Padded(t.year, 4), Padded(t.month, 2), Padded(t.day, 2);
    assert Pow10(2) == 100 && Pow10(4) == 10_000;
    PaddedReadsBack(t.year, 4);
    PaddedReadsBack(t.month, 2);
    PaddedReadsBack(t.day, 2);
    var s := FormatDate(t);
    assert s == y + "-" + m + "-" + d;
    assert s[0..4] == y && s[5..7] == m && s[8..10] == d;
  }

  lemma {:induction false} ClockReadsBack(t: Time)
    requires Ordinary(t)
    ensures var c := FormatClock(t);
            |c| == 9 && c[0] == 'T' && Writes(c, 1, 2, t.hour) && c[3] == ':' && Writes(c, 4, 2, t.minute) && c[6] == ':' && Writes(c, 7, 2, t.second)
  {
    var h, m, d := Padded(t.hour, 2), Padded(t.minute, 2), Padded(t.second, 2);
    assert Pow10(2) == 100;
    PaddedReadsBack(t.hour, 2);
    PaddedReadsBack(t.minute, 2);
    PaddedReadsBack(t.second, 2);
    var s := FormatClock(t);
    assert s == "T" + h + ":" + m + ":" + d;
    assert s[1..3] == h && s[4..6] == m && s[7..9] == d;
  }

  /** "Z" for UTC; otherwise a sign, and the whole hours and minutes of the offset. */
  ghost predicate ZoneTells(z: string, offset: int) {
    if offset == 0 then z == "Z"
    else
      && |z| == 6 && z[3] == ':' && z[0] == (if offset <= -60 then '-' else '+')
      && Writes(z, 1, 2, Magnitude(offset) / 3600) && Writes(z, 4, 2, Magnitude(offset) / 60 % 60)
  }

  lemma {:induction false} ZoneReadsBack(offset: int)
    requires -360_000 < offset < 360_000
    ensures ZoneTells(FormatZone(offset), offset)
  {
    if offset != 0 {
      var minutes := Magnitude(offset) / 60;
      assert minutes / 60 == Magnitude(offset) / 3600 < 100;
      var h, m := Padded(minutes / 60, 2), Padded(minutes % 60, 2);
      assert Pow10(2) == 100;
      PaddedReadsBack(minutes / 60, 2);
      PaddedReadsBack(minutes % 60, 2);
      var s := FormatZone(offset);
      assert s == [s[0]] + h + ":" + m;
      assert s[1..3] == h && s[4..6] == m;
    }
  }

  /** A timestamp of a four-digit year: the date in its first ten characters, the clock in the next nine, then the zone; every number reads back. */
  lemma {:induction false} TimeReadsBack(t: Time)
    requires Ordinary(t)
    ensures var s := FormatTime(t);
            && |s| > 19 && s[4] == s[7] == '-' && s[10] == 'T' && s[13] == s[16] == ':'
            && Value(s[..10][0..4]) == t.year && Value(s[..10][5..7]) == t.month && Value(s[..10][8..10]) == t.day
            && Value(s[10..19][1..3]) == t.hour && Value(s[10..19][4..6]) == t.minute && Value(s[10..19][7..9]) == t.second
            && ZoneTells(s[19..], t.offset)
  {
    DateReadsBack(t);
    ClockReadsBack(t);
    ZoneReadsBack(t.offset);
    var s := FormatTime(t);
    assert s[..10] == FormatDate(t) && s[10..19] == FormatClock(t) && s[19..] == FormatZone(t.offset);
  }

  // ----- Rows -----

  const HeaderText := "event_id" + "," + "event_timestamp" + "," + "tenant_id" + "," + "customer_id" + ","
                      + "subscription_id" + "," + "product_type" + "," + "metric_id" + "," + "quantity" + "\n"

  function HeaderFields(): seq<string> {
    ["event_id", "event_timestamp", "tenant_id", "customer_id", "subscription_id", "product_type", "metric_id", "quantity"]
  }

  /** What a row stands for. */
  function Fields(e: Event): seq<string> {
    [e.eventID, FormatTime(e.occurredAt), e.tenantID, e.customerID, e.subscriptionID, e.productType, e.metricName, "1"]
  }

  /** Under each column's name stands the value that the name promises. */
  lemma {:induction false} ColumnsMatch(e: Event, i: nat)
    requires i < 8
    ensures var name, value := HeaderFields()[i], Fields(e)[i];
            && (name == "event_id" ==> value == e.eventID)
            && (name == "event_timestamp" ==> value == FormatTime(e.occurredAt))
            && (name == "tenant_id" ==> value == e.tenantID)
            && (name == "customer_id" ==> value == e.customerID)
            && (name == "subscription_id" ==> value == e.subscriptionID)
            && (name == "product_type" ==> value == e.productType)
            && (name == "metric_id" ==> value == e.metricName)
            && (name == "quantity" ==> value == "1")
  {
    assert i == 0 || i == 1 || i == 2 || i == 3 || i == 4 || i == 5 || i == 6 || i == 7;
    assert |"event_id"| == 8 && |"event_timestamp"| == 15 && |"tenant_id"| == 9 && |"customer_id"| == 11;
    assert |"subscription_id"| == 15 && |"product_type"| == 12 && |"metric_id"| == 9 && |"quantity"| == 8;
    assert "event_id"[0] == 'e' && "quantity"[0] == 'q' && "event_timestamp"[0] == 'e' && "subscription_id"[0] == 's';
    assert "tenant_id"[0] == 't' && "metric_id"[0] == 'm';
  }

  function FieldsOf(events: seq<Event>): (r: seq<seq<string>>)
    ensures Records(r)
  {
    seq(|events|, i requires 0 <= i < |events| => Fields(events[i]))
  }

  lemma {:induction false} FieldsOfConcat(a: seq<Event>, b: seq<Event>)
    ensures FieldsOf(a + b) == FieldsOf(a) + FieldsOf(b)
  {
    var left, right := FieldsOf(a + b), FieldsOf(a) + FieldsOf(b);
    forall k | 0 <= k < |a| + |b|
      ensures left[k] == right[k]
    {
      assert (a + b)[k] == if k < |a| then a[k] else b[k - |a|];
    }
  }

  /** A file's text under the given header row. */
  ghost function TextUnder(header: seq<string>, events: seq<Event>): string
    requires header != []
  {
    Lines([header] + FieldsOf(events))
  }

  /** The text of an uploaded file with one row per event. */
  ghost predicate IsBody(text: string, events: seq<Event>) {
    forall header :: header == HeaderFields() ==> text == TextUnder(header, events)
  }

  lemma {:induction false} CellsStep(f: seq<string>, k: nat)
    requires k < |f|
    ensures Cells(f[..k + 1]) == Cells(f[..k]) + Escape(f[k]) + ","
  {
    assert f[..k + 1][..k] == f[..k];
  }

  /** The timestamp and the quantity need no escaping. */
  lemma {:induction false} FieldsEscape(e: Event)
    ensures Escape(FormatTime(e.occurredAt)) == FormatTime(e.occurredAt) && Escape("1") == "1"
  {
    TimeIsPlain(e.occurredAt);
  }

  /** The row format: eight values, commas between them, LF at the end. */
  function Row(a: string, b: string, c: string, d: string, e: string, g: string, h: string, i: string): string {
    a + "," + b + "," + c + "," + d + "," + e + "," + g + "," + h + "," + i + "\n"
  }

  lemma {:induction false} RowOf(e: Event, row: string)
    requires row == Row(Escape(e.eventID), FormatTime(e.occurredAt), Escape(e.tenantID), Escape(e.customerID),
                        Escape(e.subscriptionID), Escape(e.productType), Escape(e.metricName), "1")
    ensures row == Line(Fields(e))
  {
    var f := Fields(e);
    FieldsEscape(e);
    RowIsLine(f, Escape(f[0]), FormatTime(e.occurredAt), Escape(f[2]), Escape(f[3]), Escape(f[4]), Escape(f[5]), Escape(f[6]), "1");
  }

  method AppendRow(body: string, e: Event) returns (r: string)
    ensures r == body + Line(Fields(e))
  {
    var id := CsvEscape(e.eventID);
    var tenant := CsvEscape(e.tenantID);
    var customer := CsvEscape(e.customerID);
    var subscription := CsvEscape(e.subscriptionID);
    var product := CsvEscape(e.productType);
    var metric := CsvEscape(e.metricName);
    var row := Row(id, FormatTime(e.occurredAt), tenant, customer, subscription, product, metric, "1");
    RowOf(e, row);
    r := body + row;
  }

  /** Eight escaped cells written out are the line of the eight fields. */
  lemma {:induction false} RowIsLine(f: seq<string>, a: string, b: string, c: string, d: string, e: string, g: string, h: string, i: string)
    requires |f| == 8
    requires a == Escape(f[0]) && b == Escape(f[1]) && c == Escape(f[2]) && d == Escape(f[3])
    requires e == Escape(f[4]) && g == Escape(f[5]) && h == Escape(f[6]) && i == Escape(f[7])
    ensures Line(f) == Row(a, b, c, d, e, g, h, i)
  {
    FirstFour(f);
    CellsStep(f, 4);
    CellsStep(f, 5);
    CellsStep(f, 6);
    assert f[..|f| - 1] == f[..7];
  }

  lemma {:induction false} FirstFour(f: seq<string>)
    requires |f| == 8
    ensures Cells(f[..4]) == Escape(f[0]) + "," + Escape(f[1]) + "," + Escape(f[2]) + "," + Escape(f[3]) + ","
  {
    assert f[..0] == [];
    assert "" + Escape(f[0]) == Escape(f[0]);
    CellsStep(f, 0);
    CellsStep(f, 1);
    CellsStep(f, 2);
    CellsStep(f, 3);
  }

  lemma {:induction false} HeaderIsPlain()
    ensures forall i :: 0 <= i < 8 ==> Escape(HeaderFields()[i]) == HeaderFields()[i]
  {
    assert IsPlain("event_id") && IsPlain("event_timestamp");
    assert IsPlain("tenant_id") && IsPlain("customer_id");
    assert IsPlain("subscription_id") && IsPlain("product_type");
    assert IsPlain("metric_id") && IsPlain("quantity");
  }

  lemma {:induction false} HeaderLine()
    ensures HeaderText == Line(HeaderFields())
  {
    var f := HeaderFields();
    HeaderIsPlain();
    RowIsLine(f, f[0], f[1], f[2], f[3], f[4], f[5], f[6], f[7]);
  }

  lemma {:induction false} OneLine(header: seq<string>)
    requires header != []
    ensures TextUnder(header, []) == Line(header)
  {
    var rows := [header];
    assert [header] + FieldsOf([]) == rows;
    assert rows[..0] == [] && rows[0] == header;
    assert Lines(rows) == Lines(rows[..0]) + Line(rows[0]);
    assert Lines(rows[..0]) == "";
  }

  /** A new buffer starts with the text of the header row. */
  lemma {:induction false} HeaderIsBody()
    ensures IsBody(HeaderText, [])
  {
    HeaderLine();
    OneLine(HeaderFields());
  }

  lemma {:induction false} TextGrows(header: seq<string>, events: seq<Event>, e: Event)
    requires header != []
    ensures TextUnder(header, events + [e]) == TextUnder(header, events) + Line(Fields(e))
  {
    var old_ := [header] + FieldsOf(events);
    FieldsOfConcat(events, [e]);
    assert FieldsOf([e]) == [Fields(e)];
    assert [header] + FieldsOf(events + [e]) == old_ + [Fields(e)];
    assert (old_ + [Fields(e)])[..|old_|] == old_;
  }

  lemma {:induction false} BodyGrows(text: string, events: seq<Event>, e: Event)
    requires IsBody(text, events)
    ensures IsBody(text + Line(Fields(e)), events + [e])
  {
    TextGrows(HeaderFields(), events, e);
  }

  lemma {:induction false} TextReadsBack(header: seq<string>, events: seq<Event>)
    requires header != []
    ensures Parse(TextUnder(header, events)) == Some([header] + FieldsOf(events))
  {
    ParseLines([header] + FieldsOf(events));
  }

  /** Whatever characters the fields hold, a body reads back as the header and each event's eight fields in order. */
  lemma {:induction false} BodyReadsBack(text: string, events: seq<Event>)
    requires IsBody(text, events)
    ensures Parse(text) == Some([HeaderFields()] + FieldsOf(events))
  {
    TextReadsBack(HeaderFields(), events);
  }

  // ----- Buffering -----

  datatype Batch = Batch(tenant: string, events: seq<Event>)

  /** `pending` is what sits in each open buffer, `sent` the buffers handed off so far. */
  datatype State = State(pending: map<string, seq<Event>>, sent: seq<Batch>)

  /** A submitted event, or a flush that meets the open buffers in some order. */
  datatype Action = Submit(event: Event) | Flush(order: seq<string>)

  function Held(s: State, t: string): seq<Event> {
    if t in s.pending then s.pending[t] else []
  }

  ghost predicate Lists(order: seq<string>, keys: set<string>) {
    && (forall k :: 0 <= k < |order| ==> order[k] in keys)
    && (forall t :: t in keys ==> t in order)
    && forall i, j :: 0 <= i < j < |order| ==> order[i] != order[j]
  }

  function Taken(pending: map<string, seq<Event>>, order: seq<string>): seq<Batch> {
    if order == [] then []
    else
      var t := order[|order| - 1];
      Taken(pending, order[..|order| - 1]) + if t in pending then [Batch(t, pending[t])] else []
  }

  function SubmitStep(size: nat, s: State, e: Event): State {
    var t := e.tenantID;
    var events := Held(s, t) + [e];
    if |events| < size then s.(pending := s.pending[t := events])
    else State(s.pending - {t}, s.sent + [Batch(t, events)])
  }

  function FlushStep(s: State, order: seq<string>): State {
    State(map[], s.sent + Taken(s.pending, order))
  }

  /** A run: any interleaving of submissions and flushes, each flush meeting every open buffer once. */
  ghost predicate Runs(size: nat, acts: seq<Action>)
    decreases |acts|
  {
    acts == [] ||
    var before := acts[..|acts| - 1];
    && Runs(size, before)
    && (acts[|acts| - 1].Flush? ==> Lists(acts[|acts| - 1].order, After(size, before).pending.Keys))
  }

  ghost function After(size: nat, acts: seq<Action>): State
    decreases |acts|
  {
    if acts == [] then State(map[], [])
    else
      var s := After(size, acts[..|acts| - 1]);
      match acts[|acts| - 1]
      case Submit(e) => SubmitStep(size, s, e)
      case Flush(order) => FlushStep(s, order)
  }

  /** One tenant's submissions, in order. */
  function Submitted(acts: seq<Action>, t: string): seq<Event> {
    if acts == [] then []
    else
      var a := acts[|acts| - 1];
      Submitted(acts[..|acts| - 1], t) + if a.Submit? && a.event.tenantID == t then [a.event] else []
  }

  /** One tenant's handed-off events, upload by upload. */
  function Uploaded(sent: seq<Batch>, t: string): seq<Event> {
    if sent == [] then []
    else
      var b := sent[|sent| - 1];
      Uploaded(sent[..|sent| - 1], t) + if b.tenant == t then b.events else []
  }

  lemma {:induction false} UploadedConcat(a: seq<Batch>, b: seq<Batch>, t: string)
    ensures Uploaded(a + b, t) == Uploaded(a, t) + Uploaded(b, t)
  {
    if b == [] {
      assert a + b == a;
    } else {
      assert (a + b)[..|a + b| - 1] == a + b[..|b| - 1];
      UploadedConcat(a, b[..|b| - 1], t);
    }
  }

  lemma {:induction false} UploadedOne(b: Batch, t: string)
    ensures Uploaded([b], t) == if b.tenant == t then b.events else []
  {
    assert [b][..0] == [];
  }

  lemma {:induction false} TakenLast(pending: map<string, seq<Event>>, front: seq<string>, last: string, t: string)
    ensures Uploaded(Taken(pending, front + [last]), t)
            == Uploaded(Taken(pending, front), t) + if last == t && t in pending then pending[t] else []
  {
    var order := front + [last];
    assert order[..|order| - 1] == front;
    var head := Taken(pending, front);
    if last in pending {
      var b := Batch(last, pending[last]);
      UploadedConcat(head, [b], t);
      UploadedOne(b, t);
    } else {
      assert head + [] == head;
    }
  }

  lemma {:induction false} TakenUploads(pending: map<string, seq<Event>>, order: seq<string>, t: string)
    requires forall i, j :: 0 <= i < j < |order| ==> order[i] != order[j]
    ensures Uploaded(Taken(pending, order), t) == if t in order && t in pending then pending[t] else []
  {
    if order != [] {
      var front, last := order[..|order| - 1], order[|order| - 1];
      TakenUploads(pending, front, t);
      TakenLast(pending, front, last, t);
      assert order == front + [last];
      assert t in order <==> t in front || t == last;
      assert last !in front;
    }
  }

  lemma {:induction false} SubmitAdds(size: nat, s: State, e: Event, t: string)
    ensures var r := SubmitStep(size, s, e);
            Uploaded(r.sent, t) + Held(r, t) == Uploaded(s.sent, t) + Held(s, t) + if e.tenantID == t then [e] else []
  {
    var b := Batch(e.tenantID, Held(s, e.tenantID) + [e]);
    UploadedConcat(s.sent, [b], t);
    UploadedOne(b, t);
    Associate(Uploaded(s.sent, t), Held(s, t), [e]);
  }

  lemma {:induction false} Associate(a: seq<Event>, b: seq<Event>, c: seq<Event>)
    ensures (a + b) + c == a + (b + c) && a + [] == a
  {
  }

  lemma {:induction false} FlushMoves(s: State, order: seq<string>, t: string)
    requires Lists(order, s.pending.Keys)
    ensures var r := FlushStep(s, order);
            Uploaded(r.sent, t) + Held(r, t) == Uploaded(s.sent, t) + Held(s, t)
  {
    TakenUploads(s.pending, order, t);
    UploadedConcat(s.sent, Taken(s.pending, order), t);
  }

  /** Nothing is lost, duplicated or reordered: a tenant's submissions are its uploads followed by its open buffer. */
  lemma {:induction false} NothingLost(size: nat, acts: seq<Action>, t: string)
    requires Runs(size, acts)
    ensures Submitted(acts, t) == Uploaded(After(size, acts).sent, t) + Held(After(size, acts), t)
  {
    if acts != [] {
      var before := acts[..|acts| - 1];
      NothingLost(size, before, t);
      match acts[|acts| - 1] {
        case Submit(e) => SubmitAdds(size, After(size, before), e, t);
        case Flush(order) => FlushMoves(After(size, before), order, t);
      }
    }
  }

  /** A submission waits with its tenant's others until they are as many as the batch size, and then all go at once; other tenants' buffers stay. */
  lemma {:induction false} SubmitMeans(size: nat, acts: seq<Action>, e: Event)
    ensures var s, r := After(size, acts), After(size, acts + [Submit(e)]);
            var events := Held(s, e.tenantID) + [e];
            && (|events| < size ==> r.sent == s.sent && r.pending == s.pending[e.tenantID := events])
            && (|events| >= size ==> r.sent == s.sent + [Batch(e.tenantID, events)] && r.pending == s.pending - {e.tenantID})
  {
    assert (acts + [Submit(e)])[..|acts|] == acts;
  }

  /** A batch belongs to one tenant, holds at least one event and at most the configured number. */
  ghost predicate GoodBatch(size: nat, b: Batch) {
    && 1 <= |b.events| <= size
    && forall i :: 0 <= i < |b.events| ==> b.events[i].tenantID == b.tenant
  }

  ghost predicate GoodBuffers(size: nat, pending: map<string, seq<Event>>) {
    forall t :: t in pending ==> GoodBatch(size, Batch(t, pending[t])) && |pending[t]| < size
  }

  ghost predicate AllGood(size: nat, sent: seq<Batch>) {
    forall k :: 0 <= k < |sent| ==> GoodBatch(size, sent[k])
  }

  lemma {:induction false} TakenGood(size: nat, pending: map<string, seq<Event>>, order: seq<string>)
    requires GoodBuffers(size, pending)
    ensures AllGood(size, Taken(pending, order))
  {
    if order != [] {
      TakenGood(size, pending, order[..|order| - 1]);
    }
  }

  lemma {:induction false} BatchesAreGood(size: nat, acts: seq<Action>)
    requires size > 0
    ensures AllGood(size, After(size, acts).sent) && GoodBuffers(size, After(size, acts).pending)
  {
    if acts != [] {
      var s := After(size, acts[..|acts| - 1]);
      BatchesAreGood(size, acts[..|acts| - 1]);
      match acts[|acts| - 1] {
        case Submit(e) =>
          if e.tenantID in s.pending {
            assert GoodBatch(size, Batch(e.tenantID, s.pending[e.tenantID]));
          }
          assert GoodBatch(size, Batch(e.tenantID, Held(s, e.tenantID) + [e]));
        case Flush(order) =>
          TakenGood(size, s.pending, order);
      }
    }
  }

  // ----- End to end -----

  /** The records after the first, or none if the text is not CSV. */
  function DataRows(text: string): seq<seq<string>> {
    var parsed := Parse(text);
    if parsed.Some? && parsed.value != [] then parsed.value[1..] else []
  }

  lemma {:induction false} DataRowsOf(text: string, events: seq<Event>)
    requires IsBody(text, events)
    ensures DataRows(text) == FieldsOf(events)
  {
    BodyReadsBack(text, events);
    assert ([HeaderFields()] + FieldsOf(events))[1..] == FieldsOf(events);
  }

  /** The data rows the platform reads from one tenant's files; file k was uploaded for batch k. */
  ghost function RowsRead(files: seq<string>, sent: seq<Batch>, t: string): seq<seq<string>>
    requires |files| == |sent|
  {
    if sent == [] then []
    else
      var n := |sent| - 1;
      RowsRead(files[..n], sent[..n], t) + if sent[n].tenant == t then DataRows(files[n]) else []
  }

  ghost predicate FilesFor(files: seq<string>, sent: seq<Batch>) {
    |files| == |sent| && forall k :: 0 <= k < |sent| ==> IsBody(files[k], sent[k].events)
  }

  lemma {:induction false} ReadsWhatWasUploaded(files: seq<string>, sent: seq<Batch>, t: string)
    requires FilesFor(files, sent)
    ensures RowsRead(files, sent, t) == FieldsOf(Uploaded(sent, t))
  {
    if sent != [] {
      var n := |sent| - 1;
      ReadsWhatWasUploaded(files[..n], sent[..n], t);
      DataRowsOf(files[n], sent[n].events);
      FieldsOfConcat(Uploaded(sent[..n], t), sent[n].events);
      FieldsOfConcat(Uploaded(sent[..n], t), []);
    }
  }

  /** After a run that ends with a flush, the platform has read every submitted event's fields, in order, and nothing else. */
  lemma {:induction false} PlatformReadsAll(size: nat, acts: seq<Action>, order: seq<string>, files: seq<string>, t: string)
    requires Runs(size, acts + [Flush(order)])
    requires FilesFor(files, After(size, acts + [Flush(order)]).sent)
    ensures RowsRead(files, After(size, acts + [Flush(order)]).sent, t) == FieldsOf(Submitted(acts, t))
  {
    var all := acts + [Flush(order)];
    assert all[..|all| - 1] == acts;
    NothingLost(size, all, t);
    assert Submitted(all, t) == Submitted(acts, t);
    assert Uploaded(After(size, all).sent, t) + [] == Uploaded(After(size, all).sent, t);
    ReadsWhatWasUploaded(files, After(size, all).sent, t);
  }

  // ----- The driver -----

  /** `tenant` and `events` only record whose rows the text holds. */
  class TenantBuffer {
    ghost const tenant: string
    ghost var events: seq<Event>
    var rows: nat
    var body: string
    var lastEvent: Option<Event>

    ghost predicate Valid()
      reads this
    {
      rows == |events| && IsBody(body, events) && lastEvent == if events == [] then None else Some(events[|events| - 1])
    }

    constructor (ghost tenant: string)
      ensures Valid() && events == [] && this.tenant == tenant
    {
      this.tenant := tenant;
      events, rows, body, lastEvent := [], 0, HeaderText, None;
      HeaderIsBody();
    }

    method Add(e: Event)
      requires Valid()
      modifies this
      ensures Valid() && events == old(events) + [e]
    {
      BodyGrows(body, events, e);
      body := AppendRow(body, e);
      rows := rows + 1;
      lastEvent := Some(e);
      events := events + [e];
    }
  }

  /** One request: the event that lends its headers and form fields, the file's text, and the row count field. */
  datatype Upload = Upload(event: Event, body: string, rowCount: nat)

  /** The upload carries exactly this batch. */
  ghost predicate Carries(u: Upload, b: Batch) {
    b.events != [] && u.event == b.events[|b.events| - 1] && IsBody(u.body, b.events) && u.rowCount == |b.events|
  }

  class CSVUpload {
    const batchSize: nat
    var buffers: map<string, TenantBuffer>
    ghost var state: State

    ghost predicate Valid()
      reads this, buffers.Values
    {
      && batchSize > 0
      && Mirrors(buffers, state.pending)
    }

    constructor (batchSize: int)
      ensures Valid() && state == State(map[], [])
      ensures this.batchSize == if batchSize <= 0 then 100 else batchSize
    {
      this.batchSize := if batchSize <= 0 then 100 else batchSize;
      buffers := map[];
      state := State(map[], []);
    }

    /** Append one row to an open buffer. */
    method AppendTo(t: string, e: Event)
      requires Valid() && t in buffers
      modifies buffers[t]
      ensures Mirrors(buffers, state.pending[t := state.pending[t] + [e]])
    {
      buffers[t].Add(e);
    }

    /** Open a tenant's buffer with its first row. */
    method OpenWith(t: string, e: Event)
      requires Valid() && t !in buffers
      modifies this`buffers
      ensures fresh(buffers.Values - old(buffers.Values)) && Mirrors(buffers, state.pending[t := [e]])
    {
      var buf := new TenantBuffer(t);
      buf.Add(e);
      buffers := buffers[t := buf];
    }

    /** Append one row to the tenant's buffer, opening it if need be. */
    method AddRow(t: string, e: Event)
      requires Valid()
      modifies this`buffers, buffers.Values
      ensures fresh(buffers.Values - old(buffers.Values))
      ensures Mirrors(buffers, state.pending[t := Held(state, t) + [e]])
    {
      if t in buffers {
        AppendTo(t, e);
      } else {
        OpenWith(t, e);
        assert [] + [e] == [e];
      }
    }

    /** Remove a tenant's buffer from the map: whoever holds it owns it now. */
    method HandOff(t: string, ghost pending: map<string, seq<Event>>) returns (upload: Upload)
      requires batchSize > 0 && Mirrors(buffers, pending) && t in buffers
      modifies this
      ensures Valid() && state == State(pending - {t}, old(state).sent + [Batch(t, pending[t])])
      ensures buffers.Values <= old(buffers.Values)
      ensures Carries(upload, state.sent[|state.sent| - 1])
    {
      Without(buffers, pending, t);
      var buf := buffers[t];
      buffers := buffers - {t};
      state := State(pending - {t}, state.sent + [Batch(t, pending[t])]);
      assert buf.lastEvent.Some?;
      upload := Upload(buf.lastEvent.value, buf.body, buf.rows);
    }

    /** The size check: keep a buffer that is not full, hand off one that is. */
    method Settle(t: string, ghost pending: map<string, seq<Event>>) returns (upload: Option<Upload>)
      requires batchSize > 0 && Mirrors(buffers, pending) && t in buffers
      modifies this
      ensures Valid() && buffers.Values <= old(buffers.Values)
      ensures state == Settled(batchSize, old(state).sent, pending, t)
      ensures upload.Some? == (|pending[t]| >= batchSize)
      ensures upload.Some? ==> Carries(upload.value, Batch(t, pending[t]))
    {
      if buffers[t].rows < batchSize {
        state := State(pending, state.sent);
        return None;
      }
      var full := HandOff(t, pending);
      return Some(full);
    }

    /** None is the synthetic 202 for a buffered row; otherwise the upload that took the full buffer. */
    method Submit(e: Event) returns (upload: Option<Upload>)
      requires Valid()
      modifies this, buffers.Values
      ensures Valid() && fresh(buffers.Values - old(buffers.Values))
      ensures state == SubmitStep(batchSize, old(state), e)
      ensures var events := old(Held(state, e.tenantID)) + [e];
              && upload.Some? == (|events| >= batchSize)
              && (upload.Some? ==> Carries(upload.value, Batch(e.tenantID, events)))
    {
      ghost var pending := state.pending[e.tenantID := Held(state, e.tenantID) + [e]];
      SubmitSplits(batchSize, state, e, pending);
      AddRow(e.tenantID, e);
      upload := Settle(e.tenantID, pending);
    }

    /** Take every open buffer at once, then upload them one after another in whatever order the map yields. */
    method Flush() returns (uploads: seq<Upload>, ghost order: seq<string>)
      requires Valid()
      modifies this
      ensures Valid()
      ensures Lists(order, old(state).pending.Keys) && state == FlushStep(old(state), order)
      ensures CarryAll(uploads, Taken(old(state).pending, order))
    {
      var pending := buffers;
      ghost var open := state.pending;
      buffers := map[];
      uploads, order := Drain(pending, open);
      state := FlushStep(state, order);
    }
  }

  /** Each open buffer is its tenant's own and holds its pending events. */
  ghost predicate Mirrors(buffers: map<string, TenantBuffer>, pending: map<string, seq<Event>>)
    reads buffers.Values
  {
    && buffers.Keys == pending.Keys
    && (forall t :: t in buffers ==> buffers[t].tenant == t && buffers[t].Valid() && pending[t] != [] && buffers[t].events == pending[t])
  }

  /** The state once the size check has been made. */
  function Settled(size: nat, sent: seq<Batch>, pending: map<string, seq<Event>>, t: string): State
    requires t in pending
  {
    if |pending[t]| < size then State(pending, sent) else State(pending - {t}, sent + [Batch(t, pending[t])])
  }

  lemma {:induction false} SubmitSplits(size: nat, s: State, e: Event, pending: map<string, seq<Event>>)
    requires pending == s.pending[e.tenantID := Held(s, e.tenantID) + [e]]
    ensures SubmitStep(size, s, e) == Settled(size, s.sent, pending, e.tenantID)
  {
  }

  lemma {:induction false} Without(buffers: map<string, TenantBuffer>, pending: map<string, seq<Event>>, t: string)
    requires Mirrors(buffers, pending)
    ensures Mirrors(buffers - {t}, pending - {t}) && (buffers - {t}).Values <= buffers.Values
  {
  }

  ghost predicate CarryAll(uploads: seq<Upload>, batches: seq<Batch>) {
    |uploads| == |batches| && forall k :: 0 <= k < |uploads| ==> Carries(uploads[k], batches[k])
  }

  /** One upload for every taken buffer. */
  method Drain(pending: map<string, TenantBuffer>, ghost open: map<string, seq<Event>>)
    returns (uploads: seq<Upload>, ghost order: seq<string>)
    requires Mirrors(pending, open)
    ensures Lists(order, open.Keys) && CarryAll(uploads, Taken(open, order))
  {
    uploads, order := [], [];
    var todo := pending.Keys;
    ghost var done: set<string> := {};
    while todo != {}
      invariant done !! todo && done + todo == pending.Keys
      invariant Lists(order, done)
      invariant CarryAll(uploads, Taken(open, order))
    {
      var t :| t in todo;
      TakenNext(open, order, t);
      ListsNext(order, done, t);
      todo, done, order := todo - {t}, done + {t}, order + [t];
      var buf := pending[t];
      if buf.lastEvent.Some? {
        var u := Upload(buf.lastEvent.value, buf.body, buf.rows);
        assert Carries(u, Batch(t, open[t]));
        uploads := uploads + [u];
      }
    }
  }

  lemma {:induction false} TakenNext(open: map<string, seq<Event>>, order: seq<string>, t: string)
    requires t in open
    ensures Taken(open, order + [t]) == Taken(open, order) + [Batch(t, open[t])]
  {
    assert (order + [t])[..|order + [t]| - 1] == order;
  }

  lemma {:induction false} ListsNext(order: seq<string>, keys: set<string>, t: string)
    requires Lists(order, keys) && t !in keys
    ensures Lists(order + [t], keys + {t})
  {
    forall u | u in keys + {t}
      ensures u in order + [t]
    {
      assert (order + [t])[|order|] == t;
    }
  }
}
