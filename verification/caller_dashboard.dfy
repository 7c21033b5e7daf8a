/** The caller dashboard's client-side rules: the alarm queue polled from the
    server, the WhatsApp link's phone formatting, the record edit form and the local
    merge of a saved edit. */
module CallerDashboard {
  import opened Wrappers
  import opened Text
  import opened ReminderQueue
  import Backend

  // ---------------------------------------------------------------------------
  // Alarm queue
  // ---------------------------------------------------------------------------

  /** `reminderQueue` and `showAlarmPopup`. */
  datatype AlarmState = AlarmState(queue: seq<QueueItem>, showPopup: bool)

  /** What one poll of the queue endpoint returned: its `count` and `queue`, or an
      error (the check or the queue request failed). */
  datatype PollResult = PollOk(count: int, items: seq<QueueItem>) | PollFailed

  /** `checkReminders`: a positive count replaces the queue and raises the popup;
      a zero count or a failed request leaves the state as it was. */
  function ApplyPoll(s: AlarmState, poll: PollResult): (r: AlarmState)
    ensures poll.PollOk? && poll.count > 0 ==> r.queue == poll.items && r.showPopup
    ensures !(poll.PollOk? && poll.count > 0) ==> r == s
  {
    if poll.PollOk? && poll.count > 0 then AlarmState(poll.items, true) else s
  }

  /** The queue without the entries carrying `id`, the others kept in order. */
  function Without(queue: seq<QueueItem>, id: nat): (r: seq<QueueItem>)
    ensures |r| <= |queue|
    ensures forall x :: x in r <==> x in queue && x.queueId != id
  {
    if |queue| == 0 then []
    else if queue[0].queueId == id then Without(queue[1..], id)
    else [queue[0]] + Without(queue[1..], id)
  }

  /** Filtering distributes over concatenation: the kept entries stay in their order. */
  lemma {:induction false} WithoutKeepsOrder(a: seq<QueueItem>, b: seq<QueueItem>, id: nat)
    ensures Without(a + b, id) == Without(a, id) + Without(b, id)
  {
    if |a| > 0 {
      assert (a + b)[1..] == a[1..] + b;
      WithoutKeepsOrder(a[1..], b, id);
    } else {
      assert a + b == b;
    }
  }

  /** Filtering out an id nobody carries changes nothing. */
  lemma {:induction false} WithoutAbsentId(queue: seq<QueueItem>, id: nat)
    requires forall i :: 0 <= i < |queue| ==> queue[i].queueId != id
    ensures Without(queue, id) == queue
  {
    if |queue| > 0 {
      WithoutAbsentId(queue[1..], id);
      assert [queue[0]] + queue[1..] == queue;
    }
  }

  /** `handleDismissAlarm`: drop the entries carrying `id`, and hide the popup when
      the queue held at most one entry in the render the handler closed over, which
      is the state before the removal. */
  function Dismiss(s: AlarmState, id: nat): (r: AlarmState)
    ensures r.queue == Without(s.queue, id)
    ensures r.showPopup <==> s.showPopup && |s.queue| > 1
  {
    AlarmState(Without(s.queue, id), if |s.queue| <= 1 then false else s.showPopup)
  }

  /** The alarm the dashboard renders: the head of the queue, only while the popup
      flag is up and the queue is non-empty. */
  function ShownAlarm(s: AlarmState): (r: Option<QueueItem>)
    ensures r.Some? <==> s.showPopup && |s.queue| > 0
    ensures r.Some? ==> r.value == s.queue[0]
  {
    if s.showPopup && |s.queue| > 0 then Some(s.queue[0]) else None
  }

  /** Queue ids are the table's primary key, so a polled queue carries each once. */
  ghost predicate DistinctIds(queue: seq<QueueItem>) {
    forall i, j :: 0 <= i < j < |queue| ==> queue[i].queueId != queue[j].queueId
  }

  /** Dismissing the alarm on screen brings up the next entry of the queue, and
      hides the popup exactly when it was the last one. */
  lemma DismissShownAdvances(s: AlarmState)
    requires ShownAlarm(s).Some? && DistinctIds(s.queue)
    ensures var r := Dismiss(s, s.queue[0].queueId);
      && r.queue == s.queue[1..]
      && (|s.queue| == 1 ==> ShownAlarm(r).None?)
      && (|s.queue| > 1 ==> ShownAlarm(r) == Some(s.queue[1]))
  {
    var id := s.queue[0].queueId;
    WithoutAbsentId(s.queue[1..], id);
    assert [s.queue[0]] + s.queue[1..] == s.queue;
  }

  /** The popup hides on the stale length even when the dismissed id is not in the
      queue: an entry can remain queued with no alarm on screen. */
  lemma StaleLengthHidesRemainingAlarm(item: QueueItem, id: nat)
    requires item.queueId != id
    ensures var r := Dismiss(AlarmState([item], true), id);
      r.queue == [item] && ShownAlarm(r).None?
  {
    WithoutAbsentId([item], id);
  }

  // ---------------------------------------------------------------------------
  // WhatsApp link
  // ---------------------------------------------------------------------------

  /** The characters `/[\s\-\(\)]/g` removes. */
  predicate IsPhoneFormatting(c: char) {
    IsJsWhitespace(c) || c == '-' || c == '(' || c == ')'
  }

  /** `phoneNumber.replace(/[\s\-\(\)]/g, '')`. */
  function StripPhoneFormatting(s: string): (r: string)
    ensures |r| <= |s|
    ensures forall i :: 0 <= i < |r| ==> !IsPhoneFormatting(r[i])
    ensures forall c :: c in r <==> c in s && !IsPhoneFormatting(c)
  {
    if |s| == 0 then []
    else if IsPhoneFormatting(s[0]) then StripPhoneFormatting(s[1..])
    else [s[0]] + StripPhoneFormatting(s[1..])
  }

  /** Stripping keeps the order of what remains: stripping two strings joined is
      joining their stripped forms. */
  lemma {:induction false} StripAppend(a: string, b: string)
    ensures StripPhoneFormatting(a + b) == StripPhoneFormatting(a) + StripPhoneFormatting(b)
  {
    if |a| > 0 {
      assert (a + b)[0] == a[0];
      assert (a + b)[1..] == a[1..] + b;
      StripAppend(a[1..], b);
    } else {
      assert a + b == b;
    }
  }

  /** A single character is dropped exactly when it is formatting. */
  lemma StripSingle(c: char)
    ensures StripPhoneFormatting([c]) == (if IsPhoneFormatting(c) then [] else [c])
  {
    assert [c][1..] == [];
  }

  /** A number free of formatting characters is left as it is. */
  lemma {:induction false} StripClean(s: string)
    requires forall i :: 0 <= i < |s| ==> !IsPhoneFormatting(s[i])
    ensures StripPhoneFormatting(s) == s
  {
    if |s| > 0 {
      StripClean(s[1..]);
      assert [s[0]] + s[1..] == s;
    }
  }

  const CountryCode: string := "91"

  /** `handleWhatsAppClick`'s number: formatting stripped, and India's code put in
      front of a bare ten-digit number. */
  function WhatsAppNumber(phone: string): (r: string)
    ensures forall i :: 0 <= i < |r| ==> !IsPhoneFormatting(r[i])
    ensures var f := StripPhoneFormatting(phone);
      (r == CountryCode + f) <==> !StartsWith(f, "+") && !StartsWith(f, CountryCode) && |f| == 10
    ensures var f := StripPhoneFormatting(phone);
      r == f || r == CountryCode + f
  {
    var f := StripPhoneFormatting(phone);
    if !StartsWith(f, "+") && !StartsWith(f, CountryCode) && |f| == 10 then
      assert (CountryCode + f)[..2] == CountryCode;
      CountryCode + f
    else f
  }

  /** Formatting a formatted number again changes nothing. */
  lemma WhatsAppNumberIdempotent(phone: string)
    ensures WhatsAppNumber(WhatsAppNumber(phone)) == WhatsAppNumber(phone)
  {
    var r := WhatsAppNumber(phone);
    StripClean(r);
    if r != StripPhoneFormatting(phone) {
      assert r[..2] == CountryCode;
    }
  }

  // ---------------------------------------------------------------------------
  // Record edit form
  // ---------------------------------------------------------------------------

  /** The edit form's response control. */
  datatype ResponseType = NoType | PositiveType | NegativeType | NotPickedType | OtherType

  const Positive: string := "Positive"
  const Negative: string := "Negative"
  const NotPicked: string := "Not Picked"

  /** The control's initial position for a stored response (null reads as ''). */
  function InitialType(response: Option<string>): (r: ResponseType)
    ensures r == NoType <==> OrEmpty(response) == ""
    ensures r == OtherType <==> OrEmpty(response) !in {"", Positive, Negative, NotPicked}
  {
    var resp := OrEmpty(response);
    if resp == Positive then PositiveType
    else if resp == Negative then NegativeType
    else if resp == NotPicked then NotPickedType
    else if resp != "" then OtherType
    else NoType
  }

  /** The free-text box's initial content: the stored response unless it is one of
      the three fixed answers. */
  function InitialCustom(response: Option<string>): (r: string)
    ensures r == "" || r == OrEmpty(response)
  {
    var resp := OrEmpty(response);
    if resp in [Positive, Negative, NotPicked] then "" else resp
  }

  /** The response `handleSubmit` sends for the control and the free text. */
  function FinalResponse(t: ResponseType, custom: string): (r: string)
    ensures t == OtherType ==> r == custom
    ensures t == NoType ==> r == ""
    ensures t !in {NoType, OtherType} ==> r in {Positive, Negative, NotPicked}
  {
    match t
    case PositiveType => Positive
    case NegativeType => Negative
    case NotPickedType => NotPicked
    case OtherType => custom
    case NoType => ""
  }

  /** The body the form sends: name, response and notes are always present. */
  datatype EditPayload = EditPayload(name: string, response: string, notes: string)

  /** Saving the form without touching it sends the record back as it was, with
      nulls read as ''. */
  function UntouchedPayload(name: Option<string>, response: Option<string>, notes: Option<string>): (r: EditPayload)
    ensures r.name == OrEmpty(name) && r.notes == OrEmpty(notes)
    ensures r.response == OrEmpty(response)
  {
    ResponseRoundTrip(response);
    EditPayload(OrEmpty(name), FinalResponse(InitialType(response), InitialCustom(response)), OrEmpty(notes))
  }

  /** Classifying a stored response and submitting the classification gives the
      stored response back, for the three fixed answers, free text, '' and null. */
  lemma ResponseRoundTrip(response: Option<string>)
    ensures FinalResponse(InitialType(response), InitialCustom(response)) == OrEmpty(response)
  {
    var resp := OrEmpty(response);
    if InitialType(response) == OtherType {
      assert resp !in [Positive, Negative, NotPicked];
    }
  }

  // ---------------------------------------------------------------------------
  // Local merge of a saved edit
  // ---------------------------------------------------------------------------

  /** The fields of a record the dashboard holds in its list. */
  datatype RecordRow = RecordRow(id: nat, phone: string, name: Option<string>, response: Option<string>,
                                 notes: Option<string>, visit: string)

  /** The keys a PATCH body may carry: `{...record, ...updates}` overrides exactly
      the present ones. */
  datatype RowUpdates = RowUpdates(name: Field<Option<string>>, response: Field<Option<string>>,
                                   notes: Field<Option<string>>)

  function MergeRow(row: RecordRow, u: RowUpdates): (r: RecordRow)
    ensures r.id == row.id && r.phone == row.phone && r.visit == row.visit
    ensures r.name == u.name.Or(row.name) && r.response == u.response.Or(row.response)
    ensures r.notes == u.notes.Or(row.notes)
  {
    row.(name := u.name.Or(row.name), response := u.response.Or(row.response), notes := u.notes.Or(row.notes))
  }

  /** `handleUpdateRecord`: once the PATCH succeeded, the rows with the edited id
      take the update and every other row is kept; on failure the list is kept. */
  function ApplyRecordUpdate(rows: seq<RecordRow>, id: nat, u: RowUpdates, saved: bool): (r: seq<RecordRow>)
    ensures |r| == |rows|
    ensures forall i :: 0 <= i < |rows| ==>
      r[i] == (if saved && rows[i].id == id then MergeRow(rows[i], u) else rows[i])
  {
    seq(|rows|, i requires 0 <= i < |rows| =>
      if saved && rows[i].id == id then MergeRow(rows[i], u) else rows[i])
  }

  /** The body a merged update corresponds to on the server. */
  function ServerPatch(u: RowUpdates): Backend.RecordPatch {
    Backend.RecordPatch(u.name, u.response, u.notes, Absent, Absent)
  }

  /** A row that showed the server's name, response and notes still shows them after
      a successful save: the local merge and the server's write agree. */
  lemma LocalMergeMatchesServer(db: Backend.Db, userId: nat, row: RecordRow, u: RowUpdates, now: int)
    requires row.id in db.records
    requires var rec := db.records[row.id];
      row.name == rec.name && row.response == rec.response && row.notes == rec.notes
    requires Backend.UpdateRecord(db, userId, row.id, ServerPatch(u), now).status == 200
    ensures var rec := Backend.UpdateRecord(db, userId, row.id, ServerPatch(u), now).db.records[row.id];
      var m := MergeRow(row, u);
      m.name == rec.name && m.response == rec.response && m.notes == rec.notes
  {
  }
}
