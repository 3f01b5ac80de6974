/**
 * The module-level alarm of the order screen: the flag `isAlarmPlaying`, the handle
 * `alarmSound`, and the vibration pattern, driven by `triggerAlarm` and `stopAlarm`.
 *
 * The platform pieces become inputs: whether the vibration permission is granted and
 * whether the sound file loads. A sound is identified by the number of sounds created
 * before it, which stands for the object identity of each `new Sound(...)`.
 */
module AlarmControl {
  import opened Wrappers

  datatype Sound = Sound(id: nat, playing: bool, released: bool)

  datatype AlarmState = AlarmState(
    isAlarmPlaying: bool,
    alarmSound: Option<Sound>,
    vibrating: bool,
    soundsCreated: nat)

  /** What one `triggerAlarm()` call did. */
  datatype TriggerOutcome = PermissionDenied | AlreadyPlaying | SoundRequested(loaded: bool)

  /** Both module-level variables start cleared: no sound and not playing. */
  const Initial := AlarmState(false, None, false, 0)

  /**
   * The flag tells the truth: it is set exactly while the current sound plays. A released
   * sound never plays, and the handle is one of the sounds created so far.
   */
  predicate Consistent(st: AlarmState) {
    && (st.isAlarmPlaying <==> st.alarmSound.Some? && st.alarmSound.value.playing)
    && (st.alarmSound.Some? ==> st.alarmSound.value.id < st.soundsCreated)
    && (st.alarmSound.Some? && st.alarmSound.value.released ==> !st.alarmSound.value.playing)
  }

  /**
   * `triggerAlarm()`: asks for permission first and gives up when refused; does nothing
   * while an alarm already plays; otherwise creates one new sound, which loops and sets
   * the flag once it has loaded, and starts the vibration pattern in either case.
   */
  function Trigger(st: AlarmState, granted: bool, loaded: bool): (r: AlarmState)
    ensures !granted ==> r == st
    ensures st.isAlarmPlaying ==> r == st
    ensures granted && !st.isAlarmPlaying ==>
              && r.soundsCreated == st.soundsCreated + 1
              && r.alarmSound == Some(Sound(st.soundsCreated, loaded, false))
              && r.isAlarmPlaying == loaded
              && r.vibrating
    ensures Consistent(st) ==> Consistent(r)
    // the handle is only ever replaced while nothing plays, so no playing sound is lost
    ensures Consistent(st) && r.alarmSound != st.alarmSound ==>
              st.alarmSound.None? || !st.alarmSound.value.playing
  {
    if !granted then st
    else if st.isAlarmPlaying then st
    else
      st.(alarmSound := Some(Sound(st.soundsCreated, loaded, false)),
          isAlarmPlaying := loaded,
          vibrating := true,
          soundsCreated := st.soundsCreated + 1)
  }

  function TriggerResult(st: AlarmState, granted: bool, loaded: bool): TriggerOutcome {
    if !granted then PermissionDenied
    else if st.isAlarmPlaying then AlreadyPlaying
    else SoundRequested(loaded)
  }

  /**
   * `stopAlarm()`: when a sound exists, stops and releases it and clears the flag; with no
   * sound the flag is left as it is. The vibration is cancelled either way.
   */
  function Stop(st: AlarmState): (r: AlarmState)
    ensures st.alarmSound.Some? ==>
              && !r.isAlarmPlaying
              && r.alarmSound == Some(st.alarmSound.value.(playing := false, released := true))
    ensures st.alarmSound.None? ==> r.isAlarmPlaying == st.isAlarmPlaying && r.alarmSound.None?
    ensures !r.vibrating && r.soundsCreated == st.soundsCreated
    ensures Consistent(st) ==> Consistent(r) && !r.isAlarmPlaying
  {
    match st.alarmSound
    case None => st.(vibrating := false)
    case Some(sound) =>
      st.(alarmSound := Some(sound.(playing := false, released := true)),
          isAlarmPlaying := false,
          vibrating := false)
  }

  /** A second trigger right after one that started the alarm changes nothing: at most one sound is ever created. */
  lemma TriggerTwice(st: AlarmState, granted: bool, loaded: bool)
    requires Consistent(st)
    ensures Trigger(Trigger(st, true, true), granted, loaded) == Trigger(st, true, true)
    ensures Trigger(st, true, true).isAlarmPlaying
  {
  }

  /** Stopping twice is stopping once. */
  lemma StopIdempotent(st: AlarmState)
    ensures Stop(Stop(st)) == Stop(st)
  {
  }

  /** The calls one poll makes, in the order it makes them: trigger first, then stop. */
  function AfterPoll(st: AlarmState, trigger: bool, stop: bool, granted: bool, loaded: bool): (r: AlarmState)
    ensures Consistent(st) ==> Consistent(r)
    ensures Consistent(st) && stop ==> !r.isAlarmPlaying && !r.vibrating
    ensures !trigger ==> r.soundsCreated == st.soundsCreated
    ensures !trigger && !stop ==> r == st
  {
    var st1 := if trigger then Trigger(st, granted, loaded) else st;
    if stop then Stop(st1) else st1
  }

  /** The alarm object: the two module-level variables plus the vibrator's state. */
  class Alarm {
    var isAlarmPlaying: bool
    var alarmSound: Option<Sound>
    var vibrating: bool
    var soundsCreated: nat

    ghost function State(): AlarmState
      reads this
    {
      AlarmState(isAlarmPlaying, alarmSound, vibrating, soundsCreated)
    }

    ghost predicate Valid()
      reads this
    {
      Consistent(State())
    }

    constructor ()
      ensures Valid() && State() == Initial
    {
      isAlarmPlaying, alarmSound, vibrating, soundsCreated := false, None, false, 0;
    }

    method TriggerAlarm(granted: bool, loaded: bool) returns (outcome: TriggerOutcome)
      requires Valid()
      modifies this
      ensures Valid()
      ensures State() == Trigger(old(State()), granted, loaded)
      ensures outcome == TriggerResult(old(State()), granted, loaded)
    {
      if !granted {
        return PermissionDenied;
      }
      if isAlarmPlaying {
        return AlreadyPlaying;
      }
      alarmSound := Some(Sound(soundsCreated, false, false));
      soundsCreated := soundsCreated + 1;
      if loaded {
        alarmSound := Some(alarmSound.value.(playing := true));
        isAlarmPlaying := true;
      }
      vibrating := true;
      outcome := SoundRequested(loaded);
    }

    method StopAlarm()
      requires Valid()
      modifies this
      ensures Valid() && !isAlarmPlaying
      ensures State() == Stop(old(State()))
    {
      if alarmSound.Some? {
        alarmSound := Some(alarmSound.value.(playing := false, released := true));
        isAlarmPlaying := false;
      }
      vibrating := false;
    }
  }
}
