/** The row shape of the `reminder_queue` table, as the client receives it. The
    table's CHECK constraint admits exactly two trigger types. */
module ReminderQueue {
  import opened Wrappers

  /** `'17h_before'` (the advance warning) or `'exact_time'`. */
  datatype TriggerType = Before17h | ExactTime

  const AdvanceName: string := "17h_before"
  const ExactName: string := "exact_time"

  /** The column value stored for a trigger type. */
  function TriggerName(t: TriggerType): (r: string)
    ensures r == AdvanceName || r == ExactName
    ensures r == AdvanceName <==> t == Before17h
  {
    match t
    case Before17h => AdvanceName
    case ExactTime => ExactName
  }

  /** Reads a column value back; anything the CHECK constraint refuses is `None`. */
  function ParseTrigger(s: string): (r: Option<TriggerType>)
    ensures r.None? <==> s != AdvanceName && s != ExactName
  {
    if s == AdvanceName then Some(Before17h)
    else if s == ExactName then Some(ExactTime)
    else None
  }

  /** Storing and reading back a trigger type is lossless in both directions. */
  lemma TriggerNameRoundTrip(t: TriggerType, s: string)
    ensures ParseTrigger(TriggerName(t)) == Some(t)
    ensures ParseTrigger(s) == Some(t) ==> TriggerName(t) == s
  {
    assert AdvanceName[0] != ExactName[0];
  }

  /** One undismissed queue entry, joined with the reminder and record it points to. */
  datatype QueueItem = QueueItem(
    queueId: nat, reminderId: nat, callerId: nat, trigger: TriggerType,
    triggeredAt: int, scheduledAt: int, recordId: nat)
}
