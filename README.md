# SnuzzNoise noise monitor, modelled in Dafny

SnuzzNoise is an Android app. It samples the microphone once a second and turns
each block of 16-bit PCM samples into an RMS amplitude and a decibel value. It
keeps the last 60 readings for a bar chart. When a reading rises above the
threshold saved under the "Office" tag (70 dB by default), it sounds an alarm and
posts a notification. A latch then keeps the alarm from firing again until a
reading falls more than 10 dB below the threshold. Users save, edit and delete
thresholds on a profile screen, and the thresholds live in a document store.

The model covers:

- `AudioMonitor` (`audio_visualizer.dfy`): the view model's published fields,
  latch and recording job as a class. It has the start and stop commands,
  `stopAlarm`, the body of one monitoring tick, a ghost log of alarm events
  (play, notify, stop) and a ghost log of the recorder and loop lifecycle.
- `Signal`: `calculateRMS` as a summing loop over an array of `Short`
  samples, specified by the integer square root of the mean square.
- `DecibelHistory`: the 60-entry rolling history.
- `Hysteresis`: the latch as pure functions, with lemmas about runs of ticks.
- `Preferences`: how the repository decodes fetched documents and which write
  each of its update calls issues.
- `KotlinText`: Kotlin's `Int.toString()` and `String.toIntOrNull()`.
- `NoiseLabels`: the five-band integer label and the four-band float label.
- `Profile`: the profile screen's `UiState` and its transitions.
- `BarChart`: the chart's displayed window, bar heights and labels.
- `Wrappers`: `Option` and `Result` for nullable values and `kotlin.Result`.

Three behaviours of the code are kept as written:

- The amplitude is `sqrt(...).toInt()`, which truncates rather than rounds. It can
  reach 32768: a block of -32768 samples has mean square 2^30.
- The decibel formula clamps only the logarithm at -90. Silence therefore yields
  -1710 rather than 0. The model takes the decibel value as an input and does not
  constrain it.
- `threshold - 10` is 32-bit `Int` arithmetic. For thresholds within 10 of
  `Int.MIN_VALUE` it wraps to a large positive value (`Hysteresis.ReArmLevel`).

## Model

| member | source | states |
|---|---|---|
| KotlinText.ParseInt | app/src/main/java/com/snowi/snuzz/data/repository/UserPreferencesRepository.kt:51 | `toIntOrNull` yields only values inside `Int`'s range, from text that starts with a digit or a sign |
| KotlinText.IntToString | app/src/main/java/com/snowi/snuzz/presentation/features/profile/ProfileViewModel.kt:98 | `toString()` starts with '-' exactly for negative values; the rest is decimal digits whose value is the magnitude, with no leading zero except for 0 |
| KotlinText.ParseIntToString | app/src/main/java/com/snowi/snuzz/presentation/features/profile/ProfileViewModel.kt:96-99 | every `Int`'s `toString()` reads back as that `Int`; this is the text `startEditing` puts in the threshold field |
| KotlinText.IntToStringInjective | app/src/main/java/com/snowi/snuzz/presentation/features/profile/ProfileViewModel.kt:98 | two different `Int`s never have the same `toString()` |
| KotlinText.Wrap32 | app/src/main/java/com/snowi/snuzz/presentation/features/home/AudioVisualizerViewModel.kt:86 | `Int` arithmetic: the result is in range, equal to the exact value modulo 2^32, and exact when it fits |
| NoiseLabels.IntNoiseLabelBands | app/src/main/java/com/snowi/snuzz/data/repository/UserPreferencesRepository.kt:67-74 | below 30 "Very Quiet", 30..59 "Quiet", 60..79 "Moderate", 80..89 "Loud", 90 and up "Very Loud", each as an if-and-only-if |
| NoiseLabels.IntNoiseLabel | app/src/main/java/com/snowi/snuzz/data/repository/UserPreferencesRepository.kt:67-74 | the label is the one of the band given by how many of the boundaries 30, 60, 80, 90 the value has reached, so it is one of the five and the "Unknown" branch is unreachable; the profile screen's `getNoiseLabel` (ProfileViewModel.kt, lines 101-108) is the same `when` |
| NoiseLabels.IntNoiseLabelMonotone | app/src/main/java/com/snowi/snuzz/presentation/features/profile/ProfileViewModel.kt:101-108 | a louder value never gets a quieter label (from the band index never decreasing) |
| NoiseLabels.CutsPassedMonotone | app/src/main/java/com/snowi/snuzz/presentation/features/home/HomeScreen.kt:82-87 | the band index (boundaries reached) never decreases as the value grows; both label orders follow from it |
| NoiseLabels.FloatNoiseLabelBands | app/src/main/java/com/snowi/snuzz/presentation/features/home/HomeScreen.kt:82-87 | below 30 "Quiet", [30, 60) "Normal", [60, 85) "Loud", 85 and up "Very Loud", each as an if-and-only-if |
| NoiseLabels.FloatNoiseLabel | app/src/main/java/com/snowi/snuzz/presentation/features/home/HomeScreen.kt:82-87 | the label is the one of the band given by how many of the boundaries 30, 60, 85 the value has reached, so it is one of the four |
| NoiseLabels.FloatNoiseLabelMonotone | app/src/main/java/com/snowi/snuzz/presentation/features/home/HomeScreen.kt:82-87 | a louder reading never gets a quieter label |
| Preferences.StringField | app/src/main/java/com/snowi/snuzz/data/repository/UserPreferencesRepository.kt:56-58 | a field that is a string gives that string; a missing or non-string field gives "" |
| Preferences.ToText | app/src/main/java/com/snowi/snuzz/data/repository/UserPreferencesRepository.kt:51 | a string field is its own text, and a stored `Int` prints as text that `toIntOrNull` reads back as that `Int` |
| Preferences.ThresholdField | app/src/main/java/com/snowi/snuzz/data/repository/UserPreferencesRepository.kt:51 | a missing threshold gives null; a present one gives `toIntOrNull` of its text, an `Int` |
| Preferences.DecodeDocument | app/src/main/java/com/snowi/snuzz/data/repository/UserPreferencesRepository.kt:50-59 | a document decodes if and only if it has data and an integer threshold; the result has the document's id, that threshold, its label and the string fields or "" |
| Preferences.DecodeDocuments | app/src/main/java/com/snowi/snuzz/data/repository/UserPreferencesRepository.kt:49-60 | the output is no longer than the input |
| Preferences.GetPreferences | app/src/main/java/com/snowi/snuzz/data/repository/UserPreferencesRepository.kt:47-61 | a failed fetch stays a failure with its message; a fetched snapshot is decoded |
| Preferences.DecodeDocumentsAppend | app/src/main/java/com/snowi/snuzz/data/repository/UserPreferencesRepository.kt:49 | decoding keeps input order: the decoding of a concatenation is the concatenation of the decodings |
| Preferences.DecodeDocumentsMembers | app/src/main/java/com/snowi/snuzz/data/repository/UserPreferencesRepository.kt:49-51 | a preference is in the output exactly when some input document decodes to it |
| Preferences.DecodedPreferencesWellFormed | app/src/main/java/com/snowi/snuzz/data/repository/UserPreferencesRepository.kt:52-55 | every decoded preference has its threshold's label, one of the five, and comes from an input document with its id whose data holds that threshold |
| Preferences.PreferenceData | app/src/main/java/com/snowi/snuzz/data/repository/UserPreferencesRepository.kt:17-22 | the stored map has exactly the keys thresholdDecibel, tag, date and time, with no label |
| Preferences.UpsertPreferences | app/src/main/java/com/snowi/snuzz/data/repository/UserPreferencesRepository.kt:13-29 | a null id adds a new document; an id sets the document with that id; both write the preference's map |
| Preferences.UpdatePreference | app/src/main/java/com/snowi/snuzz/data/repository/UserPreferencesRepository.kt:31-45 | a null id fails with "No ID to update" and writes nothing; otherwise it sets the document with that id |
| Preferences.ApplyWrite | app/src/main/java/com/snowi/snuzz/data/repository/UserPreferencesRepository.kt:24-28 | the store's effect of the writes issued: add puts the map under a new id, growing the ids by exactly that one; set puts it under its id; delete removes the id; every other document is unchanged |
| Preferences.UpsertPreferencesAddsIt | app/src/main/java/com/snowi/snuzz/data/repository/UserPreferencesRepository.kt:24-25 | after `upsertPreferences` with a null id, a fetch decodes every earlier preference plus the saved one under the new id, with its label, and nothing else: no saved threshold is overwritten |
| Preferences.DeletePreferenceRemovesOnlyIt | app/src/main/java/com/snowi/snuzz/data/repository/UserPreferencesRepository.kt:63-65 | after `deletePreference(id)`, a fetch decodes exactly what it decoded before minus the preference with that id |
| Preferences.UpsertPreferencesReplacesIt | app/src/main/java/com/snowi/snuzz/data/repository/UserPreferencesRepository.kt:13-29 | after `upsertPreferences` with an id, a fetch decodes the same preferences under other ids and, under that id, exactly the saved preference with its label |
| Preferences.DecodedOutsideTarget | app/src/main/java/com/snowi/snuzz/data/repository/UserPreferencesRepository.kt:47-61 | two stores that differ only under one id decode to the same preferences under every other id |
| Preferences.WrittenPreferenceDecodes | app/src/main/java/com/snowi/snuzz/data/repository/UserPreferencesRepository.kt:17-58 | round trip: the map written for a preference decodes back to it, under the document's id and with its threshold's label |
| Signal.Square | app/src/main/java/com/snowi/snuzz/presentation/features/home/AudioVisualizerViewModel.kt:120 | a sample's square is between 0 and 2^30, so `Short * Short` fits an `Int` |
| Signal.ISqrt | app/src/main/java/com/snowi/snuzz/presentation/features/home/AudioVisualizerViewModel.kt:122 | the truncated square root: r * r <= n < (r + 1) * (r + 1) |
| Signal.ISqrtUnique | app/src/main/java/com/snowi/snuzz/presentation/features/home/AudioVisualizerViewModel.kt:122 | that property fixes the result |
| Signal.SqrtSearch | app/src/main/java/com/snowi/snuzz/presentation/features/home/AudioVisualizerViewModel.kt:122 | halving [lo, hi) finds a value in it whose square is at most n and whose successor's square exceeds n |
| Signal.SqrtSearchIsISqrt | app/src/main/java/com/snowi/snuzz/presentation/features/home/AudioVisualizerViewModel.kt:122 | from any interval that holds it, the search finds exactly the truncated root `ISqrt`; `CalculateRms` searches [0, 32769), which holds every mean square of `Short` samples |
| Signal.SumSquaresBound | app/src/main/java/com/snowi/snuzz/presentation/features/home/AudioVisualizerViewModel.kt:118-121 | the sum of squares is at most 2^30 per sample, so the `Long` sum never overflows |
| Signal.MeanSquareBound | app/src/main/java/com/snowi/snuzz/presentation/features/home/AudioVisualizerViewModel.kt:117-123 | the mean square of a block is at most 2^30 |
| Signal.RmsBound | app/src/main/java/com/snowi/snuzz/presentation/features/home/AudioVisualizerViewModel.kt:117-123 | the RMS of any non-empty block is at most 32768 |
| Signal.ConstantBlockRms | app/src/main/java/com/snowi/snuzz/presentation/features/home/AudioVisualizerViewModel.kt:117-123 | a block of one repeated sample v has RMS \|v\|; an all-zero block has RMS 0 |
| Signal.CalculateRms | app/src/main/java/com/snowi/snuzz/presentation/features/home/AudioVisualizerViewModel.kt:117-123 | the loop computes the integer square root of (sum of squares of the first readSize samples) div readSize, which is in [0, 32768] |
| Hysteresis.ReArmLevel | app/src/main/java/com/snowi/snuzz/presentation/features/home/AudioVisualizerViewModel.kt:86 | `threshold - 10` in 32-bit arithmetic: exact unless the threshold is within 10 of `Int.MIN_VALUE`, where it wraps up by 2^32 |
| Hysteresis.Fires | app/src/main/java/com/snowi/snuzz/presentation/features/home/AudioVisualizerViewModel.kt:79 | the rising condition never holds while latched, and a reading that fires is never also below the re-arm level, so the `else if` is reached only by readings that do not fire |
| Hysteresis.NextLatch | app/src/main/java/com/snowi/snuzz/presentation/features/home/AudioVisualizerViewModel.kt:79-88 | a clear latch is set exactly by db > threshold; a set latch clears exactly when db < threshold - 10 |
| Hysteresis.TickEvents | app/src/main/java/com/snowi/snuzz/presentation/features/home/AudioVisualizerViewModel.kt:79-85 | a tick plays (and notifies) exactly on the rising transition and never stops the sound |
| Hysteresis.DeadbandChangesNothing | app/src/main/java/com/snowi/snuzz/presentation/features/home/AudioVisualizerViewModel.kt:79-88 | readings in [threshold - 10, threshold] leave the latch as it is and emit nothing |
| Hysteresis.LatchAfterAppend | app/src/main/java/com/snowi/snuzz/presentation/features/home/AudioVisualizerViewModel.kt:66-92 | the latch after two runs of ticks is the second run started from the latch the first left |
| Hysteresis.StaysLatched | app/src/main/java/com/snowi/snuzz/presentation/features/home/AudioVisualizerViewModel.kt:79-88 | once set, the latch stays set and nothing plays until a reading falls below the re-arm level |
| Hysteresis.PlaysSeparatedByReArm | app/src/main/java/com/snowi/snuzz/presentation/features/home/AudioVisualizerViewModel.kt:79-88 | between any two plays there is a tick below the re-arm level |
| Hysteresis.NoReplayWithinDeadband | app/src/main/java/com/snowi/snuzz/presentation/features/home/AudioVisualizerViewModel.kt:79-88 | at threshold 70, the readings 75, 65, 75 play once |
| Hysteresis.ReplayAfterReArm | app/src/main/java/com/snowi/snuzz/presentation/features/home/AudioVisualizerViewModel.kt:79-88 | at threshold 70, the readings 75, 55, 75 play twice |
| DecibelHistory.LastN | app/src/main/java/com/snowi/snuzz/presentation/features/home/AudioVisualizerViewModel.kt:110-115 | the last n entries of a sequence, as a suffix |
| DecibelHistory.AppendReading | app/src/main/java/com/snowi/snuzz/presentation/features/home/AudioVisualizerViewModel.kt:110-115 | the new reading goes last; from a history within capacity the result is the last 60 of old history plus reading |
| DecibelHistory.AppendAllKeepsLatest | app/src/main/java/com/snowi/snuzz/presentation/features/home/AudioVisualizerViewModel.kt:110-115 | after any run of appends, the history is the last 60 readings of the arrival sequence in arrival order, so it never exceeds 60 |
| DecibelHistory.SixtyOneAppends | app/src/main/java/com/snowi/snuzz/presentation/features/home/AudioVisualizerViewModel.kt:110-115 | after 61 appends to an empty history, 60 remain and the first is gone |
| AudioMonitor.FirstTagged | app/src/main/java/com/snowi/snuzz/presentation/features/home/AudioVisualizerViewModel.kt:77 | `firstOrNull`: null exactly when no entry has the tag; otherwise the earliest entry with it |
| AudioMonitor.SelectThreshold | app/src/main/java/com/snowi/snuzz/presentation/features/home/AudioVisualizerViewModel.kt:76-77 | the first "Office" preference's threshold, or 70 when there is none or the fetch failed |
| AudioMonitor.AudioVisualizerViewModel.constructor | app/src/main/java/com/snowi/snuzz/presentation/features/home/AudioVisualizerViewModel.kt:27-48 | initial state: amplitude 0, decibel 0, not playing, empty history, latch clear, no job |
| AudioMonitor.AudioVisualizerViewModel.StartRecording | app/src/main/java/com/snowi/snuzz/presentation/features/home/AudioVisualizerViewModel.kt:51-63 | a no-op while a job exists (no recorder acquired, no loop launched); otherwise acquires the recorder and launches the loop, once each; at most one loop and one recorder are ever live |
| AudioMonitor.AudioVisualizerViewModel.StopRecording | app/src/main/java/com/snowi/snuzz/presentation/features/home/AudioVisualizerViewModel.kt:101-107 | cancels the loop if there is one and releases the recorder if one is held, in that order; the history, the latch and the alarm flag are kept, so a later start proceeds |
| AudioMonitor.AudioVisualizerViewModel.OnCleared | app/src/main/java/com/snowi/snuzz/presentation/features/home/AudioVisualizerViewModel.kt:125-128 | clearing the view model stops recording: the live loop and recorder are cancelled and released |
| AudioMonitor.AudioVisualizerViewModel.StopAlarm | app/src/main/java/com/snowi/snuzz/presentation/features/home/AudioVisualizerViewModel.kt:96-99 | clears the playing flag and logs a stop, leaving the latch unchanged |
| AudioMonitor.AudioVisualizerViewModel.UpdateDecibelHistory | app/src/main/java/com/snowi/snuzz/presentation/features/home/AudioVisualizerViewModel.kt:110-115 | the history becomes `AppendReading` of the old history, and stays within 60 entries |
| AudioMonitor.AudioVisualizerViewModel.Tick | app/src/main/java/com/snowi/snuzz/presentation/features/home/AudioVisualizerViewModel.kt:67-89 | a read of size <= 0 changes nothing; otherwise amplitude = RMS, decibel = db, history appended, and latch, playing flag and events follow `NextLatch`/`TickEvents` at the selected threshold |
| AudioMonitor.AudioVisualizerViewModel.Publish | app/src/main/java/com/snowi/snuzz/presentation/features/home/AudioVisualizerViewModel.kt:72-74 | the tick publishes the amplitude and decibel value and appends the reading to the history, keeping the view model valid |
| AudioMonitor.AudioVisualizerViewModel.CheckThreshold | app/src/main/java/com/snowi/snuzz/presentation/features/home/AudioVisualizerViewModel.kt:79-88 | the latch step: set the latch, mark playing and log play and notify on the rising transition; re-arm silently; the playing flag is never cleared |
| AudioMonitor.StopAlarmThenLoudTick | app/src/main/java/com/snowi/snuzz/presentation/features/home/AudioVisualizerViewModel.kt:79-99 | after `stopAlarm`, a loud tick with the latch still set plays nothing and the alarm stays silent |
| AudioMonitor.StartTwiceStartsOnce | app/src/main/java/com/snowi/snuzz/presentation/features/home/AudioVisualizerViewModel.kt:51-52 | two starts in a row acquire the recorder and launch the loop once |
| AudioMonitor.RestartAfterStop | app/src/main/java/com/snowi/snuzz/presentation/features/home/AudioVisualizerViewModel.kt:51-63 | start, stop, start: the first loop and recorder are cancelled and released before the second are acquired and launched |
| Profile.NewPreference | app/src/main/java/com/snowi/snuzz/presentation/features/profile/ProfileViewModel.kt:57-64 | the saved preference carries the editing id, the threshold and tag typed in, and the threshold's label |
| Profile.ProfileViewModel.constructor | app/src/main/java/com/snowi/snuzz/presentation/features/profile/ProfileViewModel.kt:20-25 | starts from the default `UiState` and loads once |
| Profile.ProfileViewModel.LoadPreferences | app/src/main/java/com/snowi/snuzz/presentation/features/profile/ProfileViewModel.kt:27-45 | first publishes the old state with isLoading = true; success takes the list and clears the error; failure keeps the list and sets the message or "Unknown error"; isLoading ends false |
| Profile.ProfileViewModel.SavePreferences | app/src/main/java/com/snowi/snuzz/presentation/features/profile/ProfileViewModel.kt:47-79 | first publishes isLoading = true; upserts under the editing id; success clears editingId and reloads; failure sets the message or "Failed to save preferences" and keeps editingId |
| Profile.ProfileViewModel.DeletePreferenceById | app/src/main/java/com/snowi/snuzz/presentation/features/profile/ProfileViewModel.kt:81-94 | first publishes isLoading = true; success reloads; failure sets the message or "Failed to delete preference"; isLoading ends false |
| Profile.ProfileViewModel.StartEditing | app/src/main/java/com/snowi/snuzz/presentation/features/profile/ProfileViewModel.kt:96-99 | sets editingId to the preference's id, changes nothing else, and hands back the threshold as text (which reads back as the threshold) and the tag |
| BarChart.Zeros | app/src/main/java/com/snowi/snuzz/presentation/components/DecibelHistoryChart.kt:31 | `List(n) { 0f }`: n zeros |
| BarChart.DisplayedHistory | app/src/main/java/com/snowi/snuzz/presentation/components/DecibelHistoryChart.kt:29-32 | fails for negative maxBars; otherwise exactly maxBars entries: the newest min(\|history\|, maxBars) values in order, then only zeros |
| BarChart.LongHistoryShowsNewest | app/src/main/java/com/snowi/snuzz/presentation/components/DecibelHistoryChart.kt:30 | a history longer than maxBars shows exactly its last maxBars values |
| BarChart.ShortHistoryIsPadded | app/src/main/java/com/snowi/snuzz/presentation/components/DecibelHistoryChart.kt:30-31 | a history that fits is shown unchanged, followed by maxBars - \|history\| zeros |
| BarChart.CoerceIn | app/src/main/java/com/snowi/snuzz/presentation/components/DecibelHistoryChart.kt:49 | `coerceIn`: the result is within the bounds, and equals the input when the input is |
| BarChart.NormalizedHeight | app/src/main/java/com/snowi/snuzz/presentation/components/DecibelHistoryChart.kt:49 | the normalised height is in [0, 1], and equals value / maxDb when that is |
| BarChart.BarHeights | app/src/main/java/com/snowi/snuzz/presentation/components/DecibelHistoryChart.kt:48-53 | one bar per displayed value, each between 0 and the canvas height |
| BarChart.ShownLabels | app/src/main/java/com/snowi/snuzz/presentation/components/DecibelHistoryChart.kt:71 | fails for negative maxBars; otherwise the first min(\|labels\|, maxBars) labels |

## Left out

- Audio capture and the coroutine loop are left out: the `AudioRecord` calls, the IO dispatcher, the one-second `delay`, `isActive` and cancellation. One loop iteration is `Tick`. The number of samples read is a parameter, and a missing recorder is a read of size 0.
- The decibel formula (`log10` on a `Double`) is floating point; `db` is an input to `Tick`.
- Floating-point rounding is left out: the model computes the RMS exactly (`sqrt` of a `Double` mean, then `toInt`). Decibel values, chart values and comparisons with the integer threshold are reals, so NaN and infinities are not modelled.
- The alarm service, ringtone and notification (`AlarmSoundPlayer`, `AlarmHelper`) are recorded only as ghost play, notify and stop events.
- The document store is external. A fetch is given as a list of documents or a failure. A write is the `WriteOp` value the repository issues, and its outcome is a parameter. `ApplyWrite` states what a successful write does to the stored documents; the id the store generates for an added document is a parameter, required to be unused, and the store's failures and the order of fetched documents are not modelled.
- A stored field value is a string, a 64-bit integer or any other value known only by its `toString()`; the exact rendering of other Firestore types is not modelled.
- KotlinText.ParseInt: it accepts ASCII digits only. Kotlin's `toIntOrNull` also accepts other Unicode decimal digits.
- Profile: coroutine launches run one after another to completion. Interleavings of overlapping loads, saves and deletes are not modelled. The date and time stamps come from the clock and are parameters.
- Drawing in `DecibelBarChart` is not modelled (bar positions, widths, colours, layout); only the window, heights and labels are. A `maxDb` of 0 would divide by zero in floats, so `NormalizedHeight` requires a non-zero `maxDb`.
- `SavedPreferencesViewModel` and all Compose screens and components are not part of this model: they are coroutine wrappers around the repository and UI layout.
