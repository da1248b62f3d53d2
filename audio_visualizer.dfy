/**
 * `AudioVisualizerViewModel`: the published amplitude, decibel value, alarm flag
 * and history, the alarm latch, and the recording job, with the commands that
 * start and stop monitoring, the body of one monitoring tick, and `stopAlarm`.
 * Alarm side effects are kept in a ghost event log.
 */
module AudioMonitor {
  import opened Wrappers
  import opened Preferences
  import opened Signal
  import opened Hysteresis
  import opened DecibelHistory
  import opened KotlinText

  const DefaultThreshold: int := 70
  const OfficeTag: string := "Office"

  /** `firstOrNull { it.tag == tag }` */
  function FirstTagged(prefs: seq<UserPreferences>, tag: string): (r: Option<UserPreferences>)
    ensures r.None? <==> forall i :: 0 <= i < |prefs| ==> prefs[i].tag != tag
    ensures r.Some? ==> exists i :: (0 <= i < |prefs| && prefs[i] == r.value && r.value.tag == tag &&
      forall j :: 0 <= j < i ==> prefs[j].tag != tag)
  {
    if prefs == [] then None
    else if prefs[0].tag == tag then Some(prefs[0])
    else
      var r := FirstTagged(prefs[1..], tag);
      assert forall j :: 1 <= j < |prefs| ==> prefs[j] == prefs[1..][j - 1];
      r
  }

  /** The threshold of a tick: the first "Office" preference's threshold, or 70 when
      there is none or the fetch failed. */
  function SelectThreshold(fetched: Result<seq<UserPreferences>>): (threshold: Int32)
    ensures fetched.Failure? ==> threshold == DefaultThreshold
    ensures fetched.Success? && FirstTagged(fetched.value, OfficeTag).None? ==> threshold == DefaultThreshold
    ensures fetched.Success? && FirstTagged(fetched.value, OfficeTag).Some? ==>
      threshold == FirstTagged(fetched.value, OfficeTag).value.thresholdDecibel
  {
    match FirstTagged(fetched.GetOrDefault([]), OfficeTag)
    case Some(p) => p.thresholdDecibel
    case None => DefaultThreshold
  }

  /** Acquiring and releasing the `AudioRecord`, launching and cancelling the
      monitoring job. */
  datatype LifecycleEvent = AcquireRecorder | LaunchLoop | CancelLoop | ReleaseRecorder

  /** Number of times `e` occurs in `log`. */
  ghost function Occurrences(log: seq<LifecycleEvent>, e: LifecycleEvent): nat {
    if log == [] then 0
    else Occurrences(log[..|log| - 1], e) + (if log[|log| - 1] == e then 1 else 0)
  }

  class AudioVisualizerViewModel {
    var amplitude: int
    var decibel: real
    var isAlarmPlaying: bool
    var decibelHistory: seq<real>
    var hasTriggeredAlarm: bool
    /** `recordingJob != null` */
    var recordingJob: bool
    /** `audioRecord != null` */
    var audioRecordHeld: bool
    /** Alarm side effects, oldest first. */
    ghost var alarmEvents: seq<AlarmEvent>
    /** Recorder and job lifecycle, oldest first. */
    ghost var lifecycle: seq<LifecycleEvent>

    ghost predicate Valid()
      reads this
    {
      |decibelHistory| <= HistoryCapacity && 0 <= amplitude <= 0x8000 && LifecycleValid()
    }

    /** A job exists exactly while a recorder is held, and at most one of each is ever
        live: every launch but the current job's has been cancelled, and every
        acquisition but the held recorder's has been released. */
    ghost predicate LifecycleValid()
      reads this`recordingJob, this`audioRecordHeld, this`lifecycle
    {
      (recordingJob <==> audioRecordHeld) &&
      Occurrences(lifecycle, LaunchLoop) == Occurrences(lifecycle, CancelLoop) + (if recordingJob then 1 else 0) &&
      Occurrences(lifecycle, AcquireRecorder) ==
        Occurrences(lifecycle, ReleaseRecorder) + (if audioRecordHeld then 1 else 0)
    }

    constructor ()
      ensures Valid()
      ensures amplitude == 0 && decibel == 0.0 && !isAlarmPlaying && decibelHistory == []
      ensures !hasTriggeredAlarm && !recordingJob && !audioRecordHeld
      ensures alarmEvents == [] && lifecycle == []
    {
      amplitude := 0;
      decibel := 0.0;
      isAlarmPlaying := false;
      decibelHistory := [];
      hasTriggeredAlarm := false;
      recordingJob := false;
      audioRecordHeld := false;
      alarmEvents := [];
      lifecycle := [];
    }

    /** `startRecording`: does nothing while a job exists; otherwise acquires the
        recorder and launches the job, once each. */
    method StartRecording()
      requires Valid()
      modifies this`recordingJob, this`audioRecordHeld, this`lifecycle
      ensures Valid()
      ensures recordingJob && audioRecordHeld
      ensures old(recordingJob) ==> lifecycle == old(lifecycle)
      ensures !old(recordingJob) ==> lifecycle == old(lifecycle) + [AcquireRecorder, LaunchLoop]
    {
      if recordingJob {
        return;
      }
      lifecycle := lifecycle + [AcquireRecorder];
      audioRecordHeld := true;
      lifecycle := lifecycle + [LaunchLoop];
      recordingJob := true;
    }

    /** `stopRecording`: cancels the job if there is one and stops and releases the
        recorder if one is held; the history, the latch and the alarm flag are kept,
        and a later start proceeds. */
    method StopRecording()
      requires Valid()
      modifies this`recordingJob, this`audioRecordHeld, this`lifecycle
      ensures Valid()
      ensures !recordingJob && !audioRecordHeld
      ensures lifecycle == old(lifecycle) + (if old(recordingJob) then [CancelLoop] else [])
                                          + (if old(audioRecordHeld) then [ReleaseRecorder] else [])
    {
      if recordingJob {
        lifecycle := lifecycle + [CancelLoop];
      }
      recordingJob := false;
      if audioRecordHeld {
        lifecycle := lifecycle + [ReleaseRecorder];
      }
      audioRecordHeld := false;
    }

    /** `onCleared`: the view model going away stops recording. */
    method OnCleared()
      requires Valid()
      modifies this`recordingJob, this`audioRecordHeld, this`lifecycle
      ensures Valid()
      ensures !recordingJob && !audioRecordHeld
      ensures lifecycle == old(lifecycle) + (if old(recordingJob) then [CancelLoop, ReleaseRecorder] else [])
    {
      StopRecording();
    }

    /** `stopAlarm`: clears the playing flag and stops the sound, leaving the latch
        set, so a still-loud reading does not play again. */
    method StopAlarm()
      requires Valid()
      modifies this`isAlarmPlaying, this`alarmEvents
      ensures Valid()
      ensures !isAlarmPlaying && alarmEvents == old(alarmEvents) + [Stop]
    {
      isAlarmPlaying := false;
      alarmEvents := alarmEvents + [Stop];
    }

    /** `updateDecibelHistory` */
    method UpdateDecibelHistory(newDecibel: real)
      modifies this`decibelHistory
      ensures |old(decibelHistory)| <= HistoryCapacity ==> |decibelHistory| <= HistoryCapacity
      ensures decibelHistory == AppendReading(old(decibelHistory), newDecibel)
    {
      var updated := decibelHistory + [newDecibel];
      if |updated| > HistoryCapacity {
        updated := updated[1..];
      }
      decibelHistory := updated;
    }

    /**
     * One iteration of the monitoring loop. `readSize` is what the recorder's
     * `read` returned into `buffer`, `db` the decibel value derived from the RMS
     * amplitude, and `fetched` the result of `getPreferences()` for this tick.
     */
    method Tick(readSize: int, buffer: array<Short>, db: real, fetched: Result<seq<UserPreferences>>)
      requires Valid()
      requires readSize <= buffer.Length
      modifies this`amplitude, this`decibel, this`decibelHistory
      modifies this`hasTriggeredAlarm, this`isAlarmPlaying, this`alarmEvents
      ensures Valid()
      ensures readSize <= 0 ==>
        amplitude == old(amplitude) && decibel == old(decibel) &&
        decibelHistory == old(decibelHistory) && hasTriggeredAlarm == old(hasTriggeredAlarm) &&
        isAlarmPlaying == old(isAlarmPlaying) && alarmEvents == old(alarmEvents)
      ensures readSize > 0 ==> amplitude == ISqrt(SumSquares(buffer[..readSize]) / readSize)
      ensures readSize > 0 ==> decibel == db && decibelHistory == AppendReading(old(decibelHistory), db)
      ensures readSize > 0 ==>
        hasTriggeredAlarm == NextLatch(old(hasTriggeredAlarm), Reading(db, SelectThreshold(fetched)))
      ensures readSize > 0 ==>
        isAlarmPlaying == (old(isAlarmPlaying) || Fires(old(hasTriggeredAlarm), Reading(db, SelectThreshold(fetched))))
      ensures readSize > 0 ==>
        alarmEvents == old(alarmEvents) + TickEvents(old(hasTriggeredAlarm), Reading(db, SelectThreshold(fetched)))
    {
      if readSize > 0 {
        var rms := CalculateRms(buffer, readSize);
        Publish(rms, db);
        var threshold := SelectThreshold(fetched);
        CheckThreshold(Reading(db, threshold));
      }
    }

    /** The published part of a tick: the amplitude and decibel values, and the
        reading appended to the history. */
    method Publish(rms: int, db: real)
      requires Valid() && 0 <= rms <= 0x8000
      modifies this`amplitude, this`decibel, this`decibelHistory
      ensures Valid()
      ensures amplitude == rms && decibel == db
      ensures decibelHistory == AppendReading(old(decibelHistory), db)
    {
      amplitude := rms;
      decibel := db;
      UpdateDecibelHistory(db);
    }

    /** The latch and alarm step of a tick: on the rising transition set the latch,
        mark the alarm playing, play and notify; re-arm silently below the re-arm
        level; otherwise change nothing. */
    method CheckThreshold(reading: Reading)
      modifies this`hasTriggeredAlarm, this`isAlarmPlaying, this`alarmEvents
      ensures hasTriggeredAlarm == NextLatch(old(hasTriggeredAlarm), reading)
      ensures isAlarmPlaying == (old(isAlarmPlaying) || Fires(old(hasTriggeredAlarm), reading))
      ensures alarmEvents == old(alarmEvents) + TickEvents(old(hasTriggeredAlarm), reading)
    {
      if reading.db > reading.threshold as real && !hasTriggeredAlarm {
        hasTriggeredAlarm := true;
        isAlarmPlaying := true;
        alarmEvents := alarmEvents + [Play, Notify(reading.db)];
      } else if reading.db < ReArmLevel(reading.threshold) as real {
        hasTriggeredAlarm := false;
      }
    }
  }

  /** After `stopAlarm`, a loud tick while the latch is still set plays nothing and
      leaves the alarm silent. */
  method StopAlarmThenLoudTick(vm: AudioVisualizerViewModel, buffer: array<Short>, fetched: Result<seq<UserPreferences>>)
    requires vm.Valid() && vm.hasTriggeredAlarm && buffer.Length > 0
    requires SelectThreshold(fetched) >= MinInt32 + HysteresisWidth
    modifies vm
    ensures vm.hasTriggeredAlarm && !vm.isAlarmPlaying
    ensures vm.alarmEvents == old(vm.alarmEvents) + [Stop]
  {
    vm.StopAlarm();
    vm.Tick(buffer.Length, buffer, SelectThreshold(fetched) as real + 5.0, fetched);
  }

  /** Starting twice in a row acquires the recorder and launches the loop once. */
  method StartTwiceStartsOnce(vm: AudioVisualizerViewModel)
    requires vm.Valid() && !vm.recordingJob
    modifies vm
    ensures vm.Valid() && vm.recordingJob
    ensures vm.lifecycle == old(vm.lifecycle) + [AcquireRecorder, LaunchLoop]
  {
    vm.StartRecording();
    vm.StartRecording();
  }

  /** Start, stop, start: the second start proceeds, and the first loop and recorder
      were cancelled and released before the second were launched and acquired. */
  method RestartAfterStop(vm: AudioVisualizerViewModel)
    requires vm.Valid() && !vm.recordingJob
    modifies vm
    ensures vm.Valid() && vm.recordingJob
    ensures vm.lifecycle == old(vm.lifecycle) +
      [AcquireRecorder, LaunchLoop, CancelLoop, ReleaseRecorder, AcquireRecorder, LaunchLoop]
  {
    vm.StartRecording();
    vm.StopRecording();
    vm.StartRecording();
  }
}
