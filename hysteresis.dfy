/**
 * The alarm latch of the noise-monitoring tick: a Schmitt trigger that fires when
 * a reading rises above the threshold and re-arms only once a reading falls more
 * than 10 dB below it. Both comparisons are strict, so readings in
 * [threshold - 10, threshold] never change the latch.
 */
module Hysteresis {
  import opened KotlinText

  const HysteresisWidth: int := 10

  /** One tick's input to the latch: the decibel value and the threshold in force. */
  datatype Reading = Reading(db: real, threshold: Int32)

  /** Alarm side effects: `AlarmSoundPlayer.play`, `AlarmHelper.showAlarmNotification`
      with the reading, and `AlarmSoundPlayer.stop`. */
  datatype AlarmEvent = Play | Notify(db: real) | Stop

  /** `threshold - 10`, computed in 32-bit `Int` arithmetic. */
  function ReArmLevel(threshold: Int32): (r: Int32)
    ensures threshold >= MinInt32 + HysteresisWidth ==> r == threshold as int - HysteresisWidth
    ensures threshold < MinInt32 + HysteresisWidth ==>
      r == threshold as int - HysteresisWidth + 0x1_0000_0000
  {
    assert IsInt32(threshold);
    Wrap32(threshold as int - HysteresisWidth)
  }

  /** The rising transition: loud enough while the latch is clear. It never fires
      while latched, and a reading that fires is never also below the re-arm level
      (when `threshold - 10` does not wrap), so the `else if` of the tick is only
      reached by readings that do not fire. */
  predicate Fires(latched: bool, r: Reading): (b: bool)
    ensures latched ==> !b
    ensures b && r.threshold >= MinInt32 + HysteresisWidth ==>
      !(r.db < ReArmLevel(r.threshold) as real)
  {
    r.db > r.threshold as real && !latched
  }

  /** The latch after one tick. A clear latch is set exactly by a reading above the
      threshold; a set latch stays set unless the reading is below the re-arm level. */
  function NextLatch(latched: bool, r: Reading): (next: bool)
    ensures !latched ==> (next <==> r.db > r.threshold as real)
    ensures latched ==> (next <==> !(r.db < ReArmLevel(r.threshold) as real))
    ensures Fires(latched, r) ==> next
  {
    if Fires(latched, r) then true
    else if r.db < ReArmLevel(r.threshold) as real then false
    else latched
  }

  /** The events of one tick: one play and one notification on the rising
      transition, nothing otherwise. */
  function TickEvents(latched: bool, r: Reading): (events: seq<AlarmEvent>)
    ensures Play in events <==> Fires(latched, r)
    ensures Stop !in events
  {
    if Fires(latched, r) then [Play, Notify(r.db)] else []
  }

  /** Readings inside the deadband [threshold - 10, threshold] leave the latch as it
      is and emit nothing. */
  lemma DeadbandChangesNothing(latched: bool, r: Reading)
    requires r.threshold >= MinInt32 + HysteresisWidth
    requires (r.threshold - HysteresisWidth) as real <= r.db <= r.threshold as real
    ensures NextLatch(latched, r) == latched
    ensures TickEvents(latched, r) == []
  {
  }

  // ---------------------------------------------------------------------------
  // Runs of ticks

  /** The latch after a run of ticks, first tick first. */
  function LatchAfter(latched: bool, ticks: seq<Reading>): bool
    decreases |ticks|
  {
    if ticks == [] then latched
    else LatchAfter(NextLatch(latched, ticks[0]), ticks[1..])
  }

  /** Number of plays in a run of ticks. */
  function PlayCount(latched: bool, ticks: seq<Reading>): (n: nat)
    ensures n <= |ticks|
    decreases |ticks|
  {
    if ticks == [] then 0
    else (if Fires(latched, ticks[0]) then 1 else 0) + PlayCount(NextLatch(latched, ticks[0]), ticks[1..])
  }

  lemma {:induction false} LatchAfterAppend(latched: bool, a: seq<Reading>, b: seq<Reading>)
    ensures LatchAfter(latched, a + b) == LatchAfter(LatchAfter(latched, a), b)
    decreases |a|
  {
    if a == [] {
      assert a + b == b;
    } else {
      assert (a + b)[1..] == a[1..] + b;
      LatchAfterAppend(NextLatch(latched, a[0]), a[1..], b);
    }
  }

  predicate NeverBelowReArm(ticks: seq<Reading>) {
    forall k :: 0 <= k < |ticks| ==> !(ticks[k].db < ReArmLevel(ticks[k].threshold) as real)
  }

  /** Once set, the latch stays set and nothing plays until some reading falls below
      the re-arm level, however loud the readings in between. */
  lemma {:induction false} StaysLatched(ticks: seq<Reading>)
    requires NeverBelowReArm(ticks)
    ensures LatchAfter(true, ticks)
    ensures PlayCount(true, ticks) == 0
  {
    if ticks != [] {
      assert NeverBelowReArm(ticks[1..]) by {
        forall k | 0 <= k < |ticks[1..]|
          ensures !(ticks[1..][k].db < ReArmLevel(ticks[1..][k].threshold) as real)
        {
          assert ticks[1..][k] == ticks[k + 1];
        }
      }
      StaysLatched(ticks[1..]);
    }
  }

  /** Any two plays of a run are separated by a tick below the re-arm level. */
  lemma PlaysSeparatedByReArm(latched: bool, ticks: seq<Reading>, i: nat, j: nat)
    requires i < j < |ticks|
    requires Fires(LatchAfter(latched, ticks[..i]), ticks[i])
    requires Fires(LatchAfter(latched, ticks[..j]), ticks[j])
    ensures exists k :: i < k < j && ticks[k].db < ReArmLevel(ticks[k].threshold) as real
  {
    var between := ticks[i + 1..j];
    if !exists k :: i < k < j && ticks[k].db < ReArmLevel(ticks[k].threshold) as real {
      assert NeverBelowReArm(between) by {
        forall k | 0 <= k < |between|
          ensures !(between[k].db < ReArmLevel(between[k].threshold) as real)
        {
          assert between[k] == ticks[i + 1 + k];
        }
      }
      StaysLatched(between);
      assert ticks[..i + 1] == ticks[..i] + [ticks[i]];
      LatchAfterAppend(latched, ticks[..i], [ticks[i]]);
      assert LatchAfter(latched, ticks[..i + 1]);
      assert ticks[..j] == ticks[..i + 1] + between;
      LatchAfterAppend(latched, ticks[..i + 1], between);
      assert false;
    }
  }

  /** Threshold 70, readings 75, 65, 75: one play only, since 65 is not below 60. */
  lemma NoReplayWithinDeadband()
    ensures PlayCount(false, [Reading(75.0, 70), Reading(65.0, 70), Reading(75.0, 70)]) == 1
  {
  }

  /** Threshold 70, readings 75, 55, 75: the drop to 55 re-arms, so two plays. */
  lemma ReplayAfterReArm()
    ensures PlayCount(false, [Reading(75.0, 70), Reading(55.0, 70), Reading(75.0, 70)]) == 2
  {
  }
}
