/** When a recording window is planned, and what it is, for each kind of window and of delivery
    (crates/autopiercam-core/src/timelapse_schedule.rs). */
module TimelapsePlans {

  import opened SharingTypes
  import opened TimelapseSchedule

  /** The configuration is complete: a time zone, a minute of the day, and a place on earth. */
  predicate Configured(s: Schedule, c: Camera) {
    && s.zone.Some? && s.sendMinute < 1440
    && (s.window.DuskToDawn? ==>
          && c.latitude.Some? && -90.0 <= c.latitude.value <= 90.0
          && c.longitude.Some? && -180.0 <= c.longitude.value <= 180.0)
  }

  lemma PlannedOnlyWhenConfigured(s: Schedule, c: Camera, alt: int -> Option<real>, t: nat)
    ensures At(s, c, alt, t).Some? ==> Configured(s, c)
  {
  }

  /** Delivery at `send` of a window that ends at `end`: at once, or at the configured local time of the
      date of the end, or of the next date if that time has passed. */
  predicate Delivers(s: Schedule, end: int, send: int)
    requires s.zone.Some?
  {
    var zone := s.zone.value;
    var today := Boundary(zone, zone.date(end), s.sendMinute);
    if s.delivery.Immediate? then send == end
    else today.Some? && if today.value >= end then send == today.value
                        else Boundary(zone, zone.date(end) + 1, s.sendMinute) == Some(send)
  }

  /** A window that ends in time and is delivered within 27 hours is planned for each of its instants. */
  predicate Plannable(s: Schedule, start: int, end: int, send: int, t: nat)
    requires s.zone.Some?
  {
    && 0 <= start <= t < end && end - start <= 26 * 3600000
    && Delivers(s, end, send) && 0 <= send - end <= 27 * 3600000
  }

  /** A UTC day is planned exactly as the day of the instant, if its delivery can be. */
  lemma UtcDayPlanned(s: Schedule, c: Camera, alt: int -> Option<real>, t: nat, w: Window)
    requires s.window.UtcDay? && Configured(s, c)
    ensures At(s, c, alt, t) == Some(w) <==>
            && w.startMs % 86400000 == 0 && w.endMs == w.startMs + 86400000
            && Plannable(s, w.startMs, w.endMs, w.sendAfterMs, t)
  {
    if w.startMs % DAY == 0 && w.startMs <= t < w.startMs + DAY {
      assert t / DAY * DAY == w.startMs;
    }
  }

  /** The local noons of two dates that follow each other and hold the instant. */
  predicate NoonToNoon(zone: Zone, t: int, date: int, start: int, end: int) {
    && Boundary(zone, date, 720) == Some(start) && Boundary(zone, date + 1, 720) == Some(end)
    && start <= t < end && date <= zone.date(t) <= date + 1
  }

  /** From noon to noon: planned exactly between the local noons around the instant. */
  lemma NoonToNoonPlanned(s: Schedule, c: Camera, alt: int -> Option<real>, t: nat, date: int, w: Window)
    requires s.window.LocalNoon? && Configured(s, c)
    requires NoonToNoon(s.zone.value, t, date, w.startMs, w.endMs)
    ensures At(s, c, alt, t) == Some(w) <==> Plannable(s, w.startMs, w.endMs, w.sendAfterMs, t)
  {
  }

  lemma NoonWindowIsNoonToNoon(s: Schedule, c: Camera, alt: int -> Option<real>, t: nat) returns (date: int)
    requires s.window.LocalNoon? && At(s, c, alt, t).Some?
    ensures NoonToNoon(s.zone.value, t, date, At(s, c, alt, t).value.startMs, At(s, c, alt, t).value.endMs)
  {
    date := s.zone.value.date(t);
    if t < Boundary(s.zone.value, date, 720).value {
      date := date - 1;
    }
  }

  /** From dusk to dawn: planned exactly as the night after the last solar noon, if the instant lies in
      it and its altitudes are known; the local noons must exist as well, although nothing else
      depends on them. */
  lemma NightPlanned(s: Schedule, c: Camera, alt: int -> Option<real>, t: nat, noon: int, day: int, altitude: real,
                     dusk: nat, dawn: nat, w: Window)
    requires s.window.DuskToDawn? && Configured(s, c) && Noons(s.zone.value, t).Some?
    requires SolarNoon(c.longitude.value, noon, day) && noon <= t < noon + 86400000
    requires EndsAt(s.twilight, altitude) && IsNight(alt, altitude, noon, dusk, dawn) && DefinedTo(alt, noon, dawn)
    requires w.startMs == noon + dusk * 60000 && w.endMs == noon + dawn * 60000
    ensures At(s, c, alt, t) == Some(w) <==> Plannable(s, w.startMs, w.endMs, w.sendAfterMs, t)
  {
    AnchorOnlySolarNoon(c.longitude.value, t, noon, day);
    NightMeaning(alt, altitude, noon);
    assert Night(alt, altitude, noon) == Some((dusk, dawn));
    SpanPlanned(s, c, alt, t, w);
  }

  lemma AnchorOnlySolarNoon(longitude: real, t: int, noon: int, day: int)
    requires -180.0 <= longitude <= 180.0 && SolarNoon(longitude, noon, day) && noon <= t < noon + 86400000
    ensures SolarAnchor(longitude, t) == noon
  {
    var d := AnchorIsSolarNoon(longitude, t);
    NoonsADayApart(longitude, noon, day, SolarAnchor(longitude, t), d);
  }

  lemma SpanPlanned(s: Schedule, c: Camera, alt: int -> Option<real>, t: nat, w: Window)
    requires Configured(s, c) && Span(s, c, alt, t) == Some((w.startMs, w.endMs))
    ensures At(s, c, alt, t) == Some(w) <==> Plannable(s, w.startMs, w.endMs, w.sendAfterMs, t)
  {
  }
}
