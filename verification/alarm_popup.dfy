/** The reminder alarm popup: what it shows for a queue entry, what its button does,
    and the beep loop that runs until the alarm is stopped. */
module AlarmPopup {
  import opened ReminderQueue
  import CallerDashboard

  /** True for the one trigger value the popup treats as the advance warning; the
      popup compares the raw column value, so anything else is the exact-time case. */
  predicate IsAdvance(triggerType: string) {
    triggerType == AdvanceName
  }

  datatype Message = AdvanceWarning | UrgentAlert
  datatype ButtonLabel = OkGotIt | StopAlarm
  datatype Handler = OkButtonHandler | StopAlarmHandler

  /** Everything the popup derives from the trigger type. */
  datatype View = View(message: Message, buttonLabel: ButtonLabel, color: string, hoverColor: string,
                       handler: Handler, showNextAlarmNote: bool)

  const OkGreen: string := "#4CAF50"
  const OkGreenHover: string := "#45a049"
  const StopRed: string := "#f44336"
  const StopRedHover: string := "#d32f2f"

  /** `getTriggerMessage`, `getButtonText`, `getButtonColor`, `getButtonHoverColor`,
      the button's `onClick` and the note under it. Every selector takes the advance
      branch exactly for '17h_before'. */
  function PopupView(triggerType: string): (v: View)
    ensures v.message == AdvanceWarning <==> IsAdvance(triggerType)
    ensures v.buttonLabel == OkGotIt <==> IsAdvance(triggerType)
    ensures v.color == OkGreen <==> IsAdvance(triggerType)
    ensures v.hoverColor == OkGreenHover <==> IsAdvance(triggerType)
    ensures v.handler == OkButtonHandler <==> IsAdvance(triggerType)
    ensures v.showNextAlarmNote <==> IsAdvance(triggerType)
    ensures !IsAdvance(triggerType) ==> v.color == StopRed && v.hoverColor == StopRedHover
  {
    if IsAdvance(triggerType) then View(AdvanceWarning, OkGotIt, OkGreen, OkGreenHover, OkButtonHandler, true)
    else View(UrgentAlert, StopAlarm, StopRed, StopRedHover, StopAlarmHandler, false)
  }

  /** For the two values the queue table admits, the view follows the trigger type. */
  lemma ViewFollowsTriggerType(t: TriggerType)
    ensures var v := PopupView(TriggerName(t));
      (t == Before17h ==> v == View(AdvanceWarning, OkGotIt, OkGreen, OkGreenHover, OkButtonHandler, true))
      && (t == ExactTime ==> v == View(UrgentAlert, StopAlarm, StopRed, StopRedHover, StopAlarmHandler, false))
  {
    assert AdvanceName[0] != ExactName[0];
  }

  /** An observable step of a button handler. */
  datatype Effect = StopAudio | PostDismiss(queueId: nat) | CallOnDismiss(queueId: nat)

  /** `handleOkButton`: stop the sound if it started, ask the server to dismiss the
      entry, and hand its id to the dashboard only once the server agreed. */
  function OkButtonEffects(item: QueueItem, audioStarted: bool, postOk: bool): (r: seq<Effect>)
    ensures (StopAudio in r) <==> audioStarted
    ensures |r| > 0 && (r[|r| - 1] == CallOnDismiss(item.queueId) <==> postOk)
    ensures PostDismiss(item.queueId) in r
    ensures CallOnDismiss(item.queueId) in r <==> postOk
    ensures forall i, j :: 0 <= i < |r| && 0 <= j < |r| && r[i] == StopAudio && r[j] == PostDismiss(item.queueId) ==> i < j
  {
    (if audioStarted then [StopAudio] else [])
    + [PostDismiss(item.queueId)]
    + (if postOk then [CallOnDismiss(item.queueId)] else [])
  }

  /** `handleStopAlarm`, written out separately as the component does. */
  function StopAlarmEffects(item: QueueItem, audioStarted: bool, postOk: bool): (r: seq<Effect>)
    ensures (StopAudio in r) <==> audioStarted
    ensures PostDismiss(item.queueId) in r
  {
    var stop := if audioStarted then [StopAudio] else [];
    var post := [PostDismiss(item.queueId)];
    if postOk then stop + post + [CallOnDismiss(item.queueId)] else stop + post
  }

  /** Despite their names, the two handlers do the same thing. */
  lemma HandlersAgree(item: QueueItem, audioStarted: bool, postOk: bool)
    ensures OkButtonEffects(item, audioStarted, postOk) == StopAlarmEffects(item, audioStarted, postOk)
  {
    if !postOk {
      var s := if audioStarted then [StopAudio] else [];
      assert s + [PostDismiss(item.queueId)] + [] == s + [PostDismiss(item.queueId)];
    }
  }

  /** The effects of pressing the popup's button. */
  function Click(item: QueueItem, audioStarted: bool, postOk: bool): seq<Effect> {
    if PopupView(TriggerName(item.trigger)).handler == OkButtonHandler then OkButtonEffects(item, audioStarted, postOk)
    else StopAlarmEffects(item, audioStarted, postOk)
  }

  /** The dashboard's state after the effects of a click have reached it. */
  function Deliver(s: CallerDashboard.AlarmState, effects: seq<Effect>): (r: CallerDashboard.AlarmState)
    ensures (forall i :: 0 <= i < |effects| ==> !effects[i].CallOnDismiss?) ==> r == s
    decreases |effects|
  {
    if |effects| == 0 then s
    else
      var s1 := if effects[0].CallOnDismiss? then CallerDashboard.Dismiss(s, effects[0].queueId) else s;
      Deliver(s1, effects[1..])
  }

  /** Pressing the button of the alarm on screen advances the dashboard to the next
      entry when the server accepted the dismissal, and changes nothing when it did
      not, whichever trigger type the alarm has. */
  lemma ClickAdvancesQueue(s: CallerDashboard.AlarmState, audioStarted: bool, postOk: bool)
    requires CallerDashboard.ShownAlarm(s).Some? && CallerDashboard.DistinctIds(s.queue)
    ensures var r := Deliver(s, Click(s.queue[0], audioStarted, postOk));
      (postOk ==> r == CallerDashboard.Dismiss(s, s.queue[0].queueId) && r.queue == s.queue[1..])
      && (!postOk ==> r == s)
  {
    var item := s.queue[0];
    HandlersAgree(item, audioStarted, postOk);
    var e := OkButtonEffects(item, audioStarted, postOk);
    assert Click(item, audioStarted, postOk) == e;
    CallerDashboard.DismissShownAdvances(s);
    var stop: seq<Effect> := if audioStarted then [StopAudio] else [];
    if postOk {
      var d := CallerDashboard.Dismiss(s, item.queueId);
      assert e == stop + [PostDismiss(item.queueId), CallOnDismiss(item.queueId)];
      DeliverQuiet(s, stop);
      DeliverAppend(s, stop, [PostDismiss(item.queueId), CallOnDismiss(item.queueId)]);
      assert Deliver(s, [PostDismiss(item.queueId), CallOnDismiss(item.queueId)]) == Deliver(s, [CallOnDismiss(item.queueId)]);
      assert Deliver(d, []) == d;
    } else {
      assert e == stop + [PostDismiss(item.queueId)];
    }
  }

  lemma DeliverQuiet(s: CallerDashboard.AlarmState, effects: seq<Effect>)
    requires forall i :: 0 <= i < |effects| ==> !effects[i].CallOnDismiss?
    ensures Deliver(s, effects) == s
  {
  }

  lemma {:induction false} DeliverAppend(s: CallerDashboard.AlarmState, a: seq<Effect>, b: seq<Effect>)
    ensures Deliver(s, a + b) == Deliver(Deliver(s, a), b)
    decreases |a|
  {
    if |a| > 0 {
      assert (a + b)[1..] == a[1..] + b;
      var s1 := if a[0].CallOnDismiss? then CallerDashboard.Dismiss(s, a[0].queueId) else s;
      DeliverAppend(s1, a[1..], b);
    } else {
      assert a + b == b;
    }
  }

  // ---------------------------------------------------------------------------
  // Beep loop
  // ---------------------------------------------------------------------------

  /** The closure state of `playAlarmSound`: the playing flag, the beeps sounded so
      far, and whether a 600 ms timer is pending. */
  datatype Beeper = Beeper(playing: bool, beeps: nat, timerPending: bool)

  /** `Tick` is the pending timer firing; `Stop` is the `stop` hook (a button or the
      unmount cleanup). */
  datatype BeepEvent = Tick | Stop

  /** The sound as the effect starts it: one beep and one timer. */
  const Started: Beeper := Beeper(true, 1, true)

  /** One event. A tick with the flag up beeps and re-arms the timer; a tick with the
      flag down beeps no more and arms nothing; a tick with no timer pending cannot
      happen and changes nothing. */
  function Step(b: Beeper, e: BeepEvent): (r: Beeper)
    ensures r.beeps == b.beeps || (r.beeps == b.beeps + 1 && b.playing && e == Tick && b.timerPending)
    ensures !b.playing ==> !r.playing
    ensures e == Stop ==> !r.playing
  {
    match e
    case Stop => b.(playing := false)
    case Tick =>
      if !b.timerPending then b
      else if b.playing then Beeper(true, b.beeps + 1, true)
      else b.(timerPending := false)
  }

  function Run(b: Beeper, events: seq<BeepEvent>): Beeper
    decreases |events|
  {
    if |events| == 0 then b else Run(Step(b, events[0]), events[1..])
  }

  /** Once the flag is down, no sequence of timer firings or further stops makes
      another beep. */
  lemma {:induction false} NoBeepAfterStop(b: Beeper, events: seq<BeepEvent>)
    requires !b.playing
    ensures Run(b, events).beeps == b.beeps && !Run(b, events).playing
    decreases |events|
  {
    if |events| > 0 {
      NoBeepAfterStop(Step(b, events[0]), events[1..]);
    }
  }

  /** Until it is stopped, the alarm beeps once per timer firing. */
  lemma {:induction false} BeepsWhilePlaying(n: nat)
    ensures Run(Started, seq(n, _ => Tick)) == Beeper(true, 1 + n, true)
  {
    var ticks := seq(n, _ => Tick);
    if n > 0 {
      var rest := seq(n - 1, _ => Tick);
      assert ticks == rest + [Tick];
      BeepsWhilePlaying(n - 1);
      RunAppend(Started, rest, [Tick]);
    }
  }

  lemma {:induction false} RunAppend(b: Beeper, a: seq<BeepEvent>, c: seq<BeepEvent>)
    ensures Run(b, a + c) == Run(Run(b, a), c)
    decreases |a|
  {
    if |a| > 0 {
      assert (a + c)[1..] == a[1..] + c;
      RunAppend(Step(b, a[0]), a[1..], c);
    } else {
      assert a + c == c;
    }
  }
}
