/** The record button: starting a recording, the five-second countdown that
    precedes a stop and can be cancelled, the label over the button and the
    clock format of the playback bar. */
module RecordingControls {
  import opened Wrappers
  import opened Strings

  /** The countdown a stop request starts from, in seconds. */
  const StopDelay: int := 5

  /** What the countdown updater returns for the previous value, and whether
      it stops the interval and fires the stop action. */
  datatype Tick = Tick(next: int, fires: bool)

  /** The `setStopCountdown` updater of the interval: above one it counts
      down; at one or below it lands on zero and fires the stop. */
  function CountdownStep(prev: int): (t: Tick)
    ensures t.fires <==> prev <= 1
    ensures t.fires ==> t.next == 0
    ensures !t.fires ==> t.next == prev - 1 && t.next >= 1
  {
    if prev <= 1 then Tick(0, true) else Tick(prev - 1, false)
  }

  /** The value after `n` ticks from `start`, stopping at the first tick
      that fires. */
  function CountdownAfter(start: int, n: nat): int
  {
    if n == 0 then start
    else
      var prev := CountdownAfter(start, n - 1);
      if prev == 0 then 0 else CountdownStep(prev).next
  }

  /** From the full delay, the countdown reads 5, 4, 3, 2, 1 and then 0,
      where it stays: the stop fires exactly on the fifth tick. */
  lemma {:induction false} CountdownFromDelay(n: nat)
    ensures n < StopDelay ==> CountdownAfter(StopDelay, n) == StopDelay - n
    ensures n >= StopDelay ==> CountdownAfter(StopDelay, n) == 0
    ensures CountdownAfter(StopDelay, n) == 1 ==> CountdownStep(CountdownAfter(StopDelay, n)).fires && n == StopDelay - 1
  {
    if n > 0 {
      CountdownFromDelay(n - 1);
    }
  }

  /** Which handler the main button calls. */
  datatype ButtonAction = CancelPressed | StopPressed | StartPressed

  /** The button's `onClick`: while recording it cancels a pending stop or
      requests one; otherwise it starts a recording. */
  function Dispatch(isRecording: bool, stopping: bool): (a: ButtonAction)
    ensures a == CancelPressed <==> isRecording && stopping
    ensures a == StopPressed <==> isRecording && !stopping
    ensures a == StartPressed <==> !isRecording
  {
    if isRecording then (if stopping then CancelPressed else StopPressed) else StartPressed
  }

  /** The text above the button while a stop is pending. */
  function CountdownLabel(n: int): string
  {
    if n > 0 then NatToString(n) + "s" else "Stopping..."
  }

  /** A positive countdown shows its seconds with an "s", and only a
      countdown that reached zero shows "Stopping...". */
  lemma CountdownLabelCases(n: int)
    ensures CountdownLabel(n) == "Stopping..." <==> n <= 0
    ensures n > 0 ==> var l := CountdownLabel(n); l[|l| - 1] == 's' && DecimalValue(l[..|l| - 1]) == n
  {
    if n > 0 {
      var digits := NatToString(n);
      assert IsDigit(digits[0]);
      assert CountdownLabel(n)[0] == digits[0];
      assert CountdownLabel(n)[..|CountdownLabel(n)| - 1] == digits;
      NatToStringRoundTrip(n);
    }
  }

  /** `formatTime` on a whole number of seconds: the minutes, a colon and
      the seconds padded to two digits. */
  function FormatTime(time: nat): string
  {
    NatToString(time / 60) + ":" + PadTwo(NatToString(time % 60))
  }

  /** Reading a clock string back: the digits before the colon are minutes,
      the two after it seconds. */
  function ParseTime(s: string): Option<nat>
  {
    if |s| >= 4 && s[|s| - 3] == ':' && AllDigits(s[..|s| - 3]) && AllDigits(s[|s| - 2..])
    then Some(DecimalValue(s[..|s| - 3]) * 60 + DecimalValue(s[|s| - 2..]))
    else None
  }

  /** Two digits or fewer read as they are printed, padded or not. */
  lemma PaddedSeconds(s: nat)
    requires s < 60
    ensures |PadTwo(NatToString(s))| == 2
    ensures AllDigits(PadTwo(NatToString(s)))
    ensures DecimalValue(PadTwo(NatToString(s))) == s
  {
    NatToStringRoundTrip(s);
    var d := NatToString(s);
    if s >= 10 {
      NatToStringRoundTrip(s / 10);
      assert |d| == 2;
    } else {
      assert |d| == 1;
      var p := PadTwo(d);
      assert p == "0" + d;
      assert p[..1] == "0";
    }
  }

  /** The clock string always reads back as the number of seconds it was
      made from, with the seconds field below sixty. */
  lemma FormatTimeRoundTrip(time: nat)
    ensures ParseTime(FormatTime(time)) == Some(time)
    ensures var r := FormatTime(time); DecimalValue(r[|r| - 2..]) < 60
  {
    var m := NatToString(time / 60);
    var ss := PadTwo(NatToString(time % 60));
    PaddedSeconds(time % 60);
    NatToStringRoundTrip(time / 60);
    var r := FormatTime(time);
    assert r == m + ":" + ss;
    assert r[..|r| - 3] == m;
    assert r[|r| - 2..] == ss;
  }

  /** The component's state: the flags and the countdown it keeps, whether
      the countdown interval and the cancel controller are installed, and
      how often the stop action and the two parent callbacks have run. */
  class Controls {
    var starting: bool
    var stopping: bool
    var processing: bool
    var showPlayback: bool
    var transcript: string
    var countdown: int
    var intervalActive: bool
    var controllerSet: bool
    var stopActions: nat
    var startsReported: nat
    var stopsReported: nat

    /** A running interval belongs to a pending stop, a pending stop has its
        cancel controller, and the countdown never leaves 0..5. */
    ghost predicate Valid()
      reads this
    {
      && 0 <= countdown <= StopDelay
      && (intervalActive ==> stopping && countdown > 0)
      && (stopping ==> controllerSet)
    }

    constructor ()
      ensures Valid()
      ensures !starting && !stopping && !processing && !showPlayback && transcript == ""
      ensures countdown == StopDelay && !intervalActive && !controllerSet
      ensures stopActions == 0 && startsReported == 0 && stopsReported == 0
    {
      starting, stopping, processing, showPlayback := false, false, false, false;
      transcript := "";
      countdown := StopDelay;
      intervalActive, controllerSet := false, false;
      stopActions, startsReported, stopsReported := 0, 0, 0;
    }

    /** The synchronous part of `handleStartRecording`: ignored while a start
        is under way; otherwise mark the start and clear the playback and the
        transcript. */
    method BeginStart() returns (accepted: bool)
      requires Valid()
      modifies this
      ensures Valid()
      ensures accepted <==> !old(starting)
      ensures accepted ==> starting && !showPlayback && transcript == ""
      ensures !accepted ==> showPlayback == old(showPlayback) && transcript == old(transcript)
      ensures stopping == old(stopping) && processing == old(processing) && countdown == old(countdown)
      ensures intervalActive == old(intervalActive) && controllerSet == old(controllerSet)
      ensures stopActions == old(stopActions) && startsReported == old(startsReported) && stopsReported == old(stopsReported)
    {
      if starting {
        return false;
      }
      starting := true;
      showPlayback := false;
      transcript := "";
      accepted := true;
    }

    /** The rest of `handleStartRecording`, once the recorder answered: on
        success clear the processing flag and tell the parent; in every case
        clear the starting flag. */
    method FinishStart(succeeded: bool)
      requires Valid()
      modifies this
      ensures Valid()
      ensures !starting
      ensures succeeded ==> !processing && startsReported == old(startsReported) + 1
      ensures !succeeded ==> processing == old(processing) && startsReported == old(startsReported)
      ensures stopping == old(stopping) && countdown == old(countdown) && showPlayback == old(showPlayback)
      ensures transcript == old(transcript)
      ensures intervalActive == old(intervalActive) && controllerSet == old(controllerSet)
      ensures stopActions == old(stopActions) && stopsReported == old(stopsReported)
    {
      if succeeded {
        processing := false;
        startsReported := startsReported + 1;
      }
      starting := false;
    }

    /** `handleStopRecording`: ignored unless a recording runs with no start
        or stop under way; otherwise mark the stop, reset the countdown to
        five, replace any interval by a fresh one and install the cancel
        controller. */
    method RequestStop(isRecording: bool) returns (accepted: bool)
      requires Valid()
      modifies this
      ensures Valid()
      ensures accepted <==> isRecording && !old(starting) && !old(stopping)
      ensures accepted ==> stopping && countdown == StopDelay && intervalActive && controllerSet
      ensures !accepted ==> stopping == old(stopping) && countdown == old(countdown)
                            && intervalActive == old(intervalActive) && controllerSet == old(controllerSet)
      ensures starting == old(starting) && processing == old(processing) && showPlayback == old(showPlayback)
      ensures transcript == old(transcript)
      ensures stopActions == old(stopActions) && startsReported == old(startsReported) && stopsReported == old(stopsReported)
    {
      if !isRecording || starting || stopping {
        return false;
      }
      stopping := true;
      countdown := StopDelay;
      // No interval can be left over here: one only runs while stopping.
      controllerSet := true;
      intervalActive := true;
      accepted := true;
    }

    /** One second of the countdown interval (it only runs while installed):
        the updater counts down, and on the last tick clears the interval,
        starts the stop action (whose first step raises the processing flag)
        and sets the countdown to zero. */
    method TickSecond()
      requires Valid() && intervalActive
      modifies this
      ensures Valid()
      ensures countdown == CountdownStep(old(countdown)).next
      ensures CountdownStep(old(countdown)).fires ==>
                !intervalActive && processing && stopActions == old(stopActions) + 1
      ensures !CountdownStep(old(countdown)).fires ==>
                intervalActive && processing == old(processing) && stopActions == old(stopActions)
      ensures starting == old(starting) && stopping == old(stopping) && controllerSet == old(controllerSet)
      ensures showPlayback == old(showPlayback) && transcript == old(transcript)
      ensures startsReported == old(startsReported) && stopsReported == old(stopsReported)
    {
      var prev := countdown;
      if prev <= 1 {
        intervalActive := false;
        processing := true;
        stopActions := stopActions + 1;
        countdown := 0;
      } else {
        countdown := prev - 1;
      }
    }

    /** The end of the stop action: the recorder either saved the file, or
        failed with "No recording in progress" (which returns early and
        leaves the processing flag up), or failed otherwise. Except in the
        early return the processing flag drops and the parent is told; the
        stopping flag always drops. The action only runs once the last tick
        has cleared the interval. */
    method FinishStop(saved: bool, nothingRecorded: bool)
      requires Valid() && !intervalActive
      modifies this
      ensures Valid()
      ensures !stopping
      ensures saved || !nothingRecorded ==> !processing && stopsReported == old(stopsReported) + 1
      ensures !saved && nothingRecorded ==> processing == old(processing) && stopsReported == old(stopsReported)
      ensures countdown == old(countdown) && !intervalActive
      ensures starting == old(starting) && controllerSet == old(controllerSet) && showPlayback == old(showPlayback)
      ensures transcript == old(transcript)
      ensures stopActions == old(stopActions) && startsReported == old(startsReported)
    {
      if saved || !nothingRecorded {
        processing := false;
        stopsReported := stopsReported + 1;
      }
      stopping := false;
    }

    /** `cancelStopRecording`: with a controller installed, clear the
        interval, drop the stopping flag, reset the countdown and uninstall
        the controller; without one do nothing. */
    method CancelStop()
      requires Valid()
      modifies this
      ensures Valid()
      ensures old(controllerSet) ==>
                !stopping && countdown == StopDelay && !intervalActive && !controllerSet
      ensures !old(controllerSet) ==>
                stopping == old(stopping) && countdown == old(countdown) && intervalActive == old(intervalActive)
                && controllerSet == old(controllerSet)
      ensures starting == old(starting) && processing == old(processing) && showPlayback == old(showPlayback)
      ensures transcript == old(transcript)
      ensures stopActions == old(stopActions) && startsReported == old(startsReported) && stopsReported == old(stopsReported)
    {
      if controllerSet {
        if intervalActive {
          intervalActive := false;
        }
        stopping := false;
        countdown := StopDelay;
        controllerSet := false;
      }
    }

    /** A press of the main button, which is disabled while a start or the
        processing runs; otherwise it calls the handler `Dispatch` picks. */
    method Press(isRecording: bool) returns (action: Option<ButtonAction>)
      requires Valid()
      modifies this
      ensures Valid()
      ensures old(starting) || old(processing) ==> action == None && unchanged(this)
      ensures !old(starting) && !old(processing) ==> action == Some(Dispatch(isRecording, old(stopping)))
      ensures action == Some(StopPressed) ==>
                && stopping && countdown == StopDelay && intervalActive && controllerSet
                && starting == old(starting) && showPlayback == old(showPlayback) && transcript == old(transcript)
      ensures action == Some(CancelPressed) ==>
                && !stopping && countdown == StopDelay && !intervalActive && !controllerSet
                && starting == old(starting) && showPlayback == old(showPlayback) && transcript == old(transcript)
      ensures action == Some(StartPressed) ==>
                && starting && !showPlayback && transcript == ""
                && stopping == old(stopping) && countdown == old(countdown)
                && intervalActive == old(intervalActive) && controllerSet == old(controllerSet)
      ensures processing == old(processing)
      ensures stopActions == old(stopActions) && startsReported == old(startsReported) && stopsReported == old(stopsReported)
    {
      if starting || processing {
        return None;
      }
      var a := Dispatch(isRecording, stopping);
      action := Some(a);
      match a {
        case CancelPressed =>
          CancelStop();
        case StopPressed =>
          var ok := RequestStop(isRecording);
        case StartPressed =>
          var ok := BeginStart();
      }
    }
  }

  /** A stop request followed by five seconds fires the stop action once,
      and a cancel in between fires nothing. */
  method StopScenario() returns (fired: nat, afterCancel: nat)
    ensures fired == 1 && afterCancel == 0
  {
    var c := new Controls();
    var ok := c.RequestStop(true);
    c.TickSecond();
    c.TickSecond();
    c.TickSecond();
    c.TickSecond();
    assert c.countdown == 1;
    c.TickSecond();
    fired := c.stopActions;

    var d := new Controls();
    ok := d.RequestStop(true);
    d.TickSecond();
    d.TickSecond();
    d.CancelStop();
    assert !d.intervalActive && d.countdown == StopDelay;
    ok := d.RequestStop(true);
    assert ok;
    afterCancel := d.stopActions;
  }
}
