/** One tick of the render loop, `update()` in script.js, with the
    module-level marker `lastAlarmFire` as the state of a page object.
    The formatted readings come in as parameters: the hour, minute and
    second fields in the chosen format, and the current 24-hour "HH:MM". */
module Clock {
  import opened ClockHands
  import opened SettingsStore
  import Alarm

  /** The running page: the only state one tick leaves to the next. */
  class ClockPage {
    var lastAlarmFire: string

    constructor ()
      ensures lastAlarmFire == ""
    {
      lastAlarmFire := "";
    }

    /** One tick: the hand angles for the settings' format, whether the
        alarm fires, and the marker afterwards. */
    method Update(s: Settings, reading: Reading, hhmm: string) returns (hands: Hands, fired: bool)
      modifies this
      ensures hands == HandAngles(s.format, reading)
      ensures fired == Alarm.Fires(Alarm.Tick(s.alarm.enabled, s.alarm.time, hhmm), old(lastAlarmFire))
      ensures lastAlarmFire == Alarm.Marker(Alarm.Tick(s.alarm.enabled, s.alarm.time, hhmm), old(lastAlarmFire))
      ensures fired ==> lastAlarmFire == hhmm
      ensures !fired ==> lastAlarmFire == old(lastAlarmFire)
    {
      var h := reading.hour % (if s.format == "12" then 12 else 24);
      var m := reading.minute;
      var sec := reading.second;
      hands := Hands((h % 12) * 300 + m * 5, m * 60 + sec, sec * 60);
      fired := false;
      if s.alarm.enabled && s.alarm.time != "" {
        if hhmm == s.alarm.time && lastAlarmFire != hhmm {
          lastAlarmFire := hhmm;
          fired := true;
        }
      }
    }
  }
}
