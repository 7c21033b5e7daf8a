/** The "set reminder" dialog: the guard on its two inputs, the request it builds,
    and what happens after the server answers. */
module ReminderModal {
  import opened Wrappers

  /** The body POSTed to the reminders endpoint. */
  datatype ReminderRequest = ReminderRequest(recordId: nat, scheduledDateTime: string)

  /** An observable step of `handleSubmit`, in order. */
  datatype Effect =
    | AlertMissingFields
    | SetLoading(on: bool)
    | Post(request: ReminderRequest)
    | AlertSuccess
    | CallOnSuccess
    | CallOnClose
    | AlertFailure

  /** The local ISO timestamp built from the date input ('YYYY-MM-DD') and the time
      input ('HH:MM'), with zero seconds. */
  function ScheduledDateTime(date: string, time: string): (r: string)
    ensures |r| == |date| + |time| + 4
    ensures r[..|date|] == date && r[|date|] == 'T'
    ensures r[|date| + 1..|date| + 1 + |time|] == time && r[|date| + 1 + |time|..] == ":00"
  {
    date + "T" + time + ":00"
  }

  /** The request the dialog sends, or `None` when either input is still empty. */
  function BuildRequest(recordId: nat, date: string, time: string): (r: Option<ReminderRequest>)
    ensures r.None? <==> date == "" || time == ""
    ensures r.Some? ==> r.value.recordId == recordId && r.value.scheduledDateTime == ScheduledDateTime(date, time)
  {
    if date == "" || time == "" then None else Some(ReminderRequest(recordId, ScheduledDateTime(date, time)))
  }

  /** `handleSubmit`: a missing input only raises an alert; otherwise loading is
      switched on, the request is sent, success alerts and calls `onSuccess` then
      `onClose`, failure alerts, and loading is switched off on both paths. */
  function Submit(recordId: nat, date: string, time: string, postOk: bool): (r: seq<Effect>)
    ensures BuildRequest(recordId, date, time).None? <==> r == [AlertMissingFields]
    ensures BuildRequest(recordId, date, time).Some? ==>
      && |r| >= 3
      && r[0] == SetLoading(true)
      && r[1] == Post(BuildRequest(recordId, date, time).value)
      && r[|r| - 1] == SetLoading(false)
      && (CallOnSuccess in r <==> postOk)
      && (CallOnClose in r <==> postOk)
      && (AlertFailure in r <==> !postOk)
    ensures BuildRequest(recordId, date, time).Some? ==>
      && |r| == (if postOk then 6 else 4)
      && (postOk ==> r[2] == AlertSuccess && r[3] == CallOnSuccess && r[4] == CallOnClose)
      && (!postOk ==> r[2] == AlertFailure)
  {
    match BuildRequest(recordId, date, time)
    case None => [AlertMissingFields]
    case Some(req) =>
      [SetLoading(true), Post(req)]
      + (if postOk then [AlertSuccess, CallOnSuccess, CallOnClose] else [AlertFailure])
      + [SetLoading(false)]
  }

  /** Index of the first 'T' in `s`, if any. */
  function FindT(s: string): (r: Option<nat>)
    ensures r.None? ==> forall i :: 0 <= i < |s| ==> s[i] != 'T'
    ensures r.Some? ==> r.value < |s| && s[r.value] == 'T' && forall i :: 0 <= i < r.value ==> s[i] != 'T'
  {
    if |s| == 0 then None
    else if s[0] == 'T' then Some(0)
    else match FindT(s[1..])
      case None => None
      case Some(k) => Some(k + 1)
  }

  /** Reads a scheduled timestamp back into its date and time parts: split at the
      first 'T', and drop the ':00' seconds. */
  function SplitScheduled(s: string): (r: Option<(string, string)>)
    ensures r.Some? ==> ScheduledDateTime(r.value.0, r.value.1) == s
  {
    match FindT(s)
    case None => None
    case Some(k) =>
      var rest := s[k + 1..];
      if |rest| >= 3 && rest[|rest| - 3..] == ":00" then
        assert s == s[..k] + "T" + rest[..|rest| - 3] + ":00";
        Some((s[..k], rest[..|rest| - 3]))
      else None
  }

  /** The timestamp the dialog sends splits back into exactly the two inputs, since
      a date input never holds a 'T'. */
  lemma ScheduledDateTimeRoundTrip(date: string, time: string)
    requires forall i :: 0 <= i < |date| ==> date[i] != 'T'
    ensures SplitScheduled(ScheduledDateTime(date, time)) == Some((date, time))
  {
    var s := ScheduledDateTime(date, time);
    FindFirstT(date, s);
    var rest := s[|date| + 1..];
    assert rest == time + ":00";
    assert rest[..|rest| - 3] == time;
  }

  lemma {:induction false} FindFirstT(date: string, s: string)
    requires forall i :: 0 <= i < |date| ==> date[i] != 'T'
    requires |s| > |date| && s[..|date|] == date && s[|date|] == 'T'
    ensures FindT(s) == Some(|date|)
    decreases |date|
  {
    if |date| > 0 {
      assert s[1..][..|date| - 1] == date[1..];
      FindFirstT(date[1..], s[1..]);
    }
  }
}
