/** Recording windows and delivery boundaries (crates/autopiercam-core/src/timelapse_schedule.rs).

    Instants are Unix milliseconds, dates are day numbers. The time zone is any pair of a local
    date for each instant and a resolution of each local minute; the sun's altitude is any partial
    function of the instant. */
module TimelapseSchedule {
  import opened Arithmetic
  import opened SharingTypes

  const MINUTE := 60000
  const HOUR := 3600000
  const DAY := 86400000

  datatype WindowMode = UtcDay | LocalNoon | DuskToDawn
  datatype DeliveryMode = Immediate | LocalTime
  datatype Twilight = Sunset | Civil | Astronomical

  /** What a local clock reading means; minutes are counted from local midnight of day 0. */
  datatype LocalResult = Single(at: int) | Ambiguous(first: int, second: int) | NoSuchTime

  datatype Zone = Zone(date: int -> int, resolve: int -> LocalResult)

  datatype Camera = Camera(latitude: Option<real>, longitude: Option<real>)

  /** `zone` is None when the configured name is not a time zone. */
  datatype Schedule = Schedule(
    window: WindowMode,
    zone: Option<Zone>,
    twilight: Twilight,
    delivery: DeliveryMode,
    sendMinute: nat)

  datatype Window = Window(startMs: int, endMs: int, sendAfterMs: int)
  {
    predicate Valid() {
      && startMs < endMs
      && endMs - startMs <= 26 * HOUR
      && sendAfterMs >= endMs
      && sendAfterMs - endMs <= 27 * HOUR
    }

    predicate Contains(t: int) {
      startMs <= t < endMs
    }
  }

  // ---------------------------------------------------------------- local boundaries

  /** The first valid minute from `minute` on, within the last `left` tries. */
  function FirstValid(zone: Zone, minute: int, left: nat): Option<int>
    decreases left
  {
    match zone.resolve(minute)
    case Single(at) => Some(at)
    case Ambiguous(a, b) => Some(if a < b then a else b)
    case NoSuchTime => if left == 0 then None else FirstValid(zone, minute + 1, left - 1)
  }

  /** When the clock of `zone` shows `minute` of `date`: the earlier instant if it does so twice, and
      if it never does, the instant of the next minute it does show, looked for at 180 minutes. */
  function Boundary(zone: Zone, date: int, minute: nat): Option<int> {
    FirstValid(zone, date * 1440 + minute, 180)
  }

  method LocalBoundary(zone: Zone, date: int, minute: nat) returns (r: Option<int>)
    ensures r == Boundary(zone, date, minute)
  {
    var naive := date * 1440 + minute;
    var shift := 0;
    while shift <= 180
      invariant 0 <= shift <= 181
      invariant shift <= 180 ==> Boundary(zone, date, minute) == FirstValid(zone, naive + shift, 180 - shift)
      invariant shift == 181 ==> Boundary(zone, date, minute).None?
    {
      match zone.resolve(naive + shift) {
        case Single(at) => return Some(at);
        case Ambiguous(a, b) => return Some(if a < b then a else b);
        case NoSuchTime =>
      }
      shift := shift + 1;
    }
    return None;
  }

  /** `at` is the only instant, or the earlier of two, at which the clock shows this minute. */
  predicate Earliest(r: LocalResult, at: int) {
    match r
    case Single(only) => at == only
    case Ambiguous(a, b) => at <= a && at <= b && (at == a || at == b)
    case NoSuchTime => false
  }

  /** A boundary is the earliest reading of the first local minute that exists. */
  lemma {:induction false} FirstValidMeaning(zone: Zone, minute: int, left: nat)
    ensures FirstValid(zone, minute, left).Some? <==>
            exists k :: minute <= k <= minute + left && !zone.resolve(k).NoSuchTime?
    ensures forall k | minute <= k <= minute + left && !zone.resolve(k).NoSuchTime?
                       && (forall j :: minute <= j < k ==> zone.resolve(j).NoSuchTime?) ::
              FirstValid(zone, minute, left).Some? && Earliest(zone.resolve(k), FirstValid(zone, minute, left).value)
    decreases left
  {
    if zone.resolve(minute).NoSuchTime? && left > 0 {
      FirstValidMeaning(zone, minute + 1, left - 1);
    }
  }

  /** The boundary of a local minute of a date is that of the first of this minute and the three hours
      after it that exists. */
  lemma BoundaryMeaning(zone: Zone, date: int, minute: nat, k: int)
    requires 0 <= k - (date * 1440 + minute) <= 180 && !zone.resolve(k).NoSuchTime?
    requires forall j | date * 1440 + minute <= j < k :: zone.resolve(j).NoSuchTime?
    ensures Boundary(zone, date, minute).Some? && Earliest(zone.resolve(k), Boundary(zone, date, minute).value)
  {
    var naive := date * 1440 + minute;
    FirstValidMeaning(zone, naive, 180);
    assert naive <= k <= naive + 180;
  }

  lemma NoBoundary(zone: Zone, date: int, minute: nat)
    requires forall k | date * 1440 + minute <= k <= date * 1440 + minute + 180 :: zone.resolve(k).NoSuchTime?
    ensures Boundary(zone, date, minute).None?
  {
    FirstValidMeaning(zone, date * 1440 + minute, 180);
  }

  // ---------------------------------------------------------------- nights

  /** The result of the minute scan from `minute` on, for altitudes at minutes after `a`. */
  function Scan(alt: int -> Option<real>, h: real, a: int, minute: nat, previous: real, dusk: Option<nat>): Option<(nat, nat)>
    requires 1 <= minute <= 1441
    decreases 1441 - minute
  {
    if minute == 1441 || alt(a + minute * MINUTE).None? then None
    else
      var current := alt(a + minute * MINUTE).value;
      var dusk' := if previous >= h && current < h then Some(minute) else dusk;
      if previous < h && current >= h && dusk'.Some? then Some((dusk'.value, minute))
      else Scan(alt, h, a, minute + 1, current, dusk')
  }

  /** Dusk and dawn, in minutes after solar noon `a`. */
  function Night(alt: int -> Option<real>, h: real, a: int): Option<(nat, nat)> {
    if alt(a).None? then None else Scan(alt, h, a, 1, alt(a).value, None)
  }

  method FindNight(alt: int -> Option<real>, h: real, a: int) returns (r: Option<(nat, nat)>)
    ensures r == Night(alt, h, a)
  {
    var at := alt(a);
    if at.None? {
      return None;
    }
    var previous := at.value;
    var dusk: Option<nat> := None;
    var minute := 1;
    while minute <= 1440
      invariant 1 <= minute <= 1441
      invariant Night(alt, h, a) == Scan(alt, h, a, minute, previous, dusk)
    {
      at := alt(a + minute * MINUTE);
      if at.None? {
        return None;
      }
      var current := at.value;
      if previous >= h && current < h {
        dusk := Some(minute);
      }
      if previous < h && current >= h && dusk.Some? {
        return Some((dusk.value, minute));
      }
      previous := current;
      minute := minute + 1;
    }
    return None;
  }

  /** The sampled altitude, meaningful where it is defined. */
  function Sampled(alt: int -> Option<real>, a: int, minute: int): real {
    if alt(a + minute * MINUTE).Some? then alt(a + minute * MINUTE).value else 0.0
  }

  /** Minute `m` is the first sample below the threshold after one that is not. */
  predicate Falls(alt: int -> Option<real>, h: real, a: int, m: int) {
    Sampled(alt, a, m - 1) >= h && Sampled(alt, a, m) < h
  }

  /** From dusk up to dawn every sample is below the threshold; the ones before dusk and at dawn
      are not, and no earlier sample of the day begins a night. */
  ghost predicate IsNight(alt: int -> Option<real>, h: real, a: int, dusk: nat, dawn: nat) {
    && 1 <= dusk < dawn <= 1440
    && Falls(alt, h, a, dusk)
    && (forall m :: dusk <= m < dawn ==> Sampled(alt, a, m) < h)
    && Sampled(alt, a, dawn) >= h
    && (forall m :: 1 <= m < dusk ==> !Falls(alt, h, a, m))
  }

  /** What the scan has established before sample `minute`. */
  ghost predicate Scanned(alt: int -> Option<real>, h: real, a: int, minute: nat, previous: real, dusk: Option<nat>) {
    && 1 <= minute <= 1441
    && previous == Sampled(alt, a, minute - 1)
    && (forall m :: 0 <= m < minute ==> alt(a + m * MINUTE).Some?)
    && (dusk.None? ==> forall m :: 1 <= m < minute ==> !Falls(alt, h, a, m))
    && (dusk.Some? ==>
          && 1 <= dusk.value < minute
          && Falls(alt, h, a, dusk.value)
          && (forall m :: dusk.value <= m < minute ==> Sampled(alt, a, m) < h)
          && (forall m :: 1 <= m < dusk.value ==> !Falls(alt, h, a, m)))
  }

  /** The altitude is known at every minute up to `last`. */
  ghost predicate DefinedTo(alt: int -> Option<real>, a: int, last: nat) {
    forall m :: 0 <= m <= last ==> alt(a + m * MINUTE).Some?
  }

  /** No night ends among the samples already scanned. */
  lemma NoNightScanned(alt: int -> Option<real>, h: real, a: int, minute: nat, previous: real, dusk: Option<nat>,
                       p: nat, q: nat)
    requires Scanned(alt, h, a, minute, previous, dusk) && IsNight(alt, h, a, p, q)
    ensures minute <= q
  {
  }

  lemma ScanFindsNone(alt: int -> Option<real>, h: real, a: int, minute: nat, previous: real, dusk: Option<nat>)
    requires Scanned(alt, h, a, minute, previous, dusk)
    requires minute == 1441 || alt(a + minute * MINUTE).None?
    ensures forall p: nat, q: nat :: !(IsNight(alt, h, a, p, q) && DefinedTo(alt, a, q))
  {
    forall p: nat, q: nat ensures !(IsNight(alt, h, a, p, q) && DefinedTo(alt, a, q)) {
      if IsNight(alt, h, a, p, q) && DefinedTo(alt, a, q) {
        NoNightScanned(alt, h, a, minute, previous, dusk, p, q);
      }
    }
  }

  lemma {:induction false} ScanMeaning(alt: int -> Option<real>, h: real, a: int, minute: nat, previous: real, dusk: Option<nat>)
    requires Scanned(alt, h, a, minute, previous, dusk)
    ensures var r := Scan(alt, h, a, minute, previous, dusk);
            && (r.Some? ==> IsNight(alt, h, a, r.value.0, r.value.1) && DefinedTo(alt, a, r.value.1))
            && (r.None? ==> forall p: nat, q: nat :: !(IsNight(alt, h, a, p, q) && DefinedTo(alt, a, q)))
    decreases 1441 - minute
  {
    if minute == 1441 || alt(a + minute * MINUTE).None? {
      ScanFindsNone(alt, h, a, minute, previous, dusk);
    } else {
      var current := alt(a + minute * MINUTE).value;
      var dusk' := if previous >= h && current < h then Some(minute) else dusk;
      if previous < h && current >= h && dusk'.Some? {
      } else {
        ScanMeaning(alt, h, a, minute + 1, current, dusk');
      }
    }
  }

  /** A night is found exactly when the day has one and the altitude is known up to its end, and then
      it is the first. */
  lemma NightMeaning(alt: int -> Option<real>, h: real, a: int)
    ensures forall p: nat, q: nat ::
              Night(alt, h, a) == Some((p, q)) <==> IsNight(alt, h, a, p, q) && DefinedTo(alt, a, q)
  {
    assert alt(a + 0 * MINUTE) == alt(a);
    if alt(a).Some? {
      ScanMeaning(alt, h, a, 1, alt(a).value, None);
    }
    forall p: nat, q: nat | IsNight(alt, h, a, p, q) && DefinedTo(alt, a, q)
      ensures Night(alt, h, a) == Some((p, q))
    {
      assert alt(a + 0 * MINUTE).Some?;
      NightUnique(alt, h, a, p, q, Night(alt, h, a).value.0, Night(alt, h, a).value.1);
    }
  }

  lemma NightUnique(alt: int -> Option<real>, h: real, a: int, p: nat, q: nat, p': nat, q': nat)
    requires IsNight(alt, h, a, p, q) && IsNight(alt, h, a, p', q')
    ensures p == p' && q == q'
  {
    assert p == p' by {
      assert Falls(alt, h, a, p) && Falls(alt, h, a, p');
    }
  }

  // ---------------------------------------------------------------- the planner

  function Threshold(t: Twilight): real {
    match t
    case Sunset => -0.833
    case Civil => -6.0
    case Astronomical => -18.0
  }

  predicate Located(c: Camera) {
    && c.latitude.Some? && c.longitude.Some?
    && -90.0 <= c.latitude.value <= 90.0
    && -180.0 <= c.longitude.value <= 180.0
  }

  predicate Validates(s: Schedule, c: Camera) {
    && s.zone.Some?
    && s.sendMinute < 1440
    && (s.window.DuskToDawn? ==> Located(c))
  }

  /** The local noons around an instant. */
  function Noons(zone: Zone, t: int): Option<(int, int)> {
    var date := zone.date(t);
    var noon := Boundary(zone, date, 720);
    if noon.None? then None
    else
      var d := if t < noon.value then date - 1 else date;
      var a, b := Boundary(zone, d, 720), Boundary(zone, d + 1, 720);
      if a.None? || b.None? then None else Some((a.value, b.value))
  }

  /** The last mean solar noon, by the longitude, at or before an instant. */
  function SolarAnchor(longitude: real, t: int): int {
    var noon := t / DAY * DAY + RoundHalfAway(720.0 - longitude * 4.0) * MINUTE;
    if t < noon then noon - DAY else noon
  }

  function Span(s: Schedule, c: Camera, alt: int -> Option<real>, t: int): Option<(int, int)>
    requires Validates(s, c)
  {
    match s.window
    case UtcDay => Some((t / DAY * DAY, t / DAY * DAY + DAY))
    case LocalNoon => Noons(s.zone.value, t)
    case DuskToDawn =>
      if Noons(s.zone.value, t).None? then None
      else SolarSpan(alt, Threshold(s.twilight), SolarAnchor(c.longitude.value, t))
  }

  function SolarSpan(alt: int -> Option<real>, threshold: real, anchor: int): Option<(int, int)> {
    var night := Night(alt, threshold, anchor);
    if night.None? then None else Some((anchor + night.value.0 * MINUTE, anchor + night.value.1 * MINUTE))
  }

  function SendAfter(s: Schedule, zone: Zone, end: int): Option<int> {
    if s.delivery.Immediate? then Some(end)
    else
      var date := zone.date(end);
      var boundary := Boundary(zone, date, s.sendMinute);
      if boundary.None? then None
      else if boundary.value >= end then boundary
      else Boundary(zone, date + 1, s.sendMinute)
  }

  /** The window of a span, if it is valid and holds the instant. */
  function Planned(s: Schedule, zone: Zone, span: (int, int), t: int): Option<Window> {
    var send := SendAfter(s, zone, span.1);
    if span.0 < 0 || span.1 < 0 || send.None? || send.value < 0 then None
    else
      var w := Window(span.0, span.1, send.value);
      if w.Valid() && w.Contains(t) then Some(w) else None
  }

  function At(s: Schedule, c: Camera, alt: int -> Option<real>, t: nat): Option<Window> {
    if !Validates(s, c) then None
    else
      var span := Span(s, c, alt, t);
      if span.None? then None else Planned(s, s.zone.value, span.value, t)
  }

  method FindNoons(zone: Zone, t: int) returns (r: Option<(int, int)>)
    ensures r == Noons(zone, t)
  {
    var date := zone.date(t);
    var noon := LocalBoundary(zone, date, 720);
    if noon.None? {
      return None;
    }
    date := if t < noon.value then date - 1 else date;
    var a := LocalBoundary(zone, date, 720);
    if a.None? {
      return None;
    }
    var b := LocalBoundary(zone, date + 1, 720);
    if b.None? {
      return None;
    }
    return Some((a.value, b.value));
  }

  method FindSend(s: Schedule, zone: Zone, end: int) returns (r: Option<int>)
    ensures r == SendAfter(s, zone, end)
  {
    if s.delivery.Immediate? {
      return Some(end);
    }
    var date := zone.date(end);
    r := LocalBoundary(zone, date, s.sendMinute);
    if r.Some? && r.value < end {
      r := LocalBoundary(zone, date + 1, s.sendMinute);
    }
  }

  method FindSpan(s: Schedule, c: Camera, alt: int -> Option<real>, t: nat) returns (r: Option<(int, int)>)
    requires Validates(s, c)
    ensures r == Span(s, c, alt, t)
  {
    if s.window.UtcDay? {
      return Some((t / DAY * DAY, t / DAY * DAY + DAY));
    }
    r := FindNoons(s.zone.value, t);
    if r.None? {
      return None;
    }
    if s.window.DuskToDawn? {
      r := FindSolarSpan(alt, Threshold(s.twilight), SolarAnchor(c.longitude.value, t));
    }
  }

  method FindSolarSpan(alt: int -> Option<real>, threshold: real, anchor: int) returns (r: Option<(int, int)>)
    ensures r == SolarSpan(alt, threshold, anchor)
  {
    var night := FindNight(alt, threshold, anchor);
    if night.None? {
      return None;
    }
    r := Some((anchor + night.value.0 * MINUTE, anchor + night.value.1 * MINUTE));
  }

  method Plan(s: Schedule, c: Camera, alt: int -> Option<real>, t: nat) returns (r: Option<Window>)
    ensures r == At(s, c, alt, t)
  {
    if !Validates(s, c) {
      return None;
    }
    var found := FindSpan(s, c, alt, t);
    if found.None? {
      return None;
    }
    var span := found.value;
    var send := FindSend(s, s.zone.value, span.1);
    if span.0 < 0 || span.1 < 0 || send.None? || send.value < 0 {
      return None;
    }
    var w := Window(span.0, span.1, send.value);
    return if w.Valid() && w.Contains(t) then Some(w) else None;
  }

  // ---------------------------------------------------------------- restarts

  /** The noon of every earlier date lies before an instant, the noon of every later date after. */
  ghost predicate Bracketing(zone: Zone, minute: nat) {
    forall t: int, d: int :: Boundary(zone, d, minute).Some? ==>
      && (d < zone.date(t) ==> Boundary(zone, d, minute).value < t)
      && (d > zone.date(t) ==> t < Boundary(zone, d, minute).value)
  }

  /** A local time of a later date is a later instant. */
  ghost predicate Increasing(zone: Zone, minute: nat) {
    forall x: int, y: int | x < y && Boundary(zone, x, minute).Some? && Boundary(zone, y, minute).Some? ::
      Boundary(zone, x, minute).value < Boundary(zone, y, minute).value
  }

  lemma NoonsHold(zone: Zone, t: int, u: int)
    requires Bracketing(zone, 720)
    requires Noons(zone, t).Some? && Noons(zone, t).value.0 <= u < Noons(zone, t).value.1
    ensures Noons(zone, u) == Noons(zone, t)
  {
  }

  /** A whole number of minutes, at most a day, for every longitude. */
  lemma SolarNoonOfDay(longitude: real)
    requires -180.0 <= longitude <= 180.0
    ensures 0 <= RoundHalfAway(720.0 - longitude * 4.0) <= 1440
  {
  }

  /** Solar days are disjoint: the anchor of every instant of one is the same. */
  lemma AnchorHolds(longitude: real, t: int, u: int)
    requires -180.0 <= longitude <= 180.0
    ensures SolarAnchor(longitude, t) <= t < SolarAnchor(longitude, t) + DAY
    ensures SolarAnchor(longitude, t) <= u < SolarAnchor(longitude, t) + DAY ==> SolarAnchor(longitude, u) == SolarAnchor(longitude, t)
  {
    SolarNoonOfDay(longitude);
  }

  /** `a` is a whole UTC minute at which mean solar time, UTC and four minutes for every degree east, is
      within half a minute of the noon of day `day`; of two equally near, the later one. */
  predicate SolarNoon(longitude: real, a: int, day: int) {
    && a % 60000 == 0
    && -0.5 < (a / 60000) as real + 4.0 * longitude - 720.0 - 1440.0 * day as real <= 0.5
  }

  /** The anchor is the last solar noon at or before the instant, and the only one within a day. */
  lemma AnchorIsSolarNoon(longitude: real, t: int) returns (day: int)
    requires -180.0 <= longitude <= 180.0
    ensures SolarNoon(longitude, SolarAnchor(longitude, t), day)
    ensures SolarAnchor(longitude, t) <= t < SolarAnchor(longitude, t) + 86400000
    ensures forall a, d :: SolarNoon(longitude, a, d) && a <= t ==> a <= SolarAnchor(longitude, t)
  {
    AnchorHolds(longitude, t, t);
    day := AnchorDay(longitude, t);
    var anchor := SolarAnchor(longitude, t);
    forall a, d | SolarNoon(longitude, a, d) && a <= t ensures a <= anchor {
      NoonsADayApart(longitude, a, d, anchor, day);
    }
  }

  lemma AnchorDay(longitude: real, t: int) returns (day: int)
    requires -180.0 <= longitude <= 180.0
    ensures SolarNoon(longitude, SolarAnchor(longitude, t), day)
  {
    SolarNoonOfDay(longitude);
    var offset, q := RoundHalfAway(720.0 - longitude * 4.0), t / DAY;
    assert offset as real - 0.5 <= 720.0 - longitude * 4.0 < offset as real + 0.5;
    day := if t < q * DAY + offset * MINUTE then q - 1 else q;
    WholeMinutes(day * 1440 + offset);
    assert SolarAnchor(longitude, t) == (day * 1440 + offset) * 60000;
  }

  lemma WholeMinutes(n: int)
    ensures n * 60000 % 60000 == 0 && n * 60000 / 60000 == n
  {
  }

  lemma NoonsADayApart(longitude: real, a: int, d: int, b: int, e: int)
    requires SolarNoon(longitude, a, d) && SolarNoon(longitude, b, e)
    ensures a - b == (d - e) * 86400000
  {
    assert a == a / 60000 * 60000 && b == b / 60000 * 60000;
    var x := a / 60000 - b / 60000 - 1440 * (d - e);
    assert -1.0 < x as real < 1.0;
  }

  lemma WindowHoldsInstant(s: Schedule, c: Camera, alt: int -> Option<real>, t: nat)
    requires At(s, c, alt, t).Some?
    ensures var w := At(s, c, alt, t).value; w.Valid() && w.Contains(t)
  {
  }

  /** A window holds the instant it was planned for, and a restart at any instant inside it resumes
      that very window. In dusk-to-dawn mode it
      does so exactly when the local noons around that instant exist, although the window does not
      depend on them; otherwise it plans nothing, never another window. */
  lemma RestartResumesWindow(s: Schedule, c: Camera, alt: int -> Option<real>, t: nat, u: nat)
    requires At(s, c, alt, t).Some? && At(s, c, alt, t).value.Contains(u)
    requires s.window.LocalNoon? ==> Bracketing(s.zone.value, 720)
    ensures At(s, c, alt, t).value.Valid() && At(s, c, alt, t).value.Contains(t)
    ensures s.window.DuskToDawn? ==>
              At(s, c, alt, u) == if Noons(s.zone.value, u).Some? then At(s, c, alt, t) else None
    ensures !s.window.DuskToDawn? ==> At(s, c, alt, u) == At(s, c, alt, t)
  {
    WindowHoldsInstant(s, c, alt, t);
    if s.window.DuskToDawn? {
      SpanInSolarDay(s, c, alt, t, u);
      SameSpan(s, c, alt, t, u);
    } else if s.window.LocalNoon? {
      NoonsHold(s.zone.value, t, u);
      SameSpan(s, c, alt, t, u);
    } else {
      SameDay(t, u);
      SameSpan(s, c, alt, t, u);
    }
  }

  /** Planning looks at the instant only through its span. */
  lemma SameSpan(s: Schedule, c: Camera, alt: int -> Option<real>, t: nat, u: nat)
    requires At(s, c, alt, t).Some? && At(s, c, alt, t).value.Contains(u)
    ensures Span(s, c, alt, u) == Span(s, c, alt, t) ==> At(s, c, alt, u) == At(s, c, alt, t)
    ensures Span(s, c, alt, u).None? ==> At(s, c, alt, u).None?
  {
  }

  lemma SameDay(t: int, u: int)
    requires t / DAY * DAY <= u < t / DAY * DAY + DAY
    ensures u / DAY == t / DAY
  {
  }

  lemma NightInDay(alt: int -> Option<real>, h: real, a: int)
    requires Night(alt, h, a).Some?
    ensures 1 <= Night(alt, h, a).value.0 < Night(alt, h, a).value.1 <= 1440
    ensures IsNight(alt, h, a, Night(alt, h, a).value.0, Night(alt, h, a).value.1)
  {
    assert alt(a + 0 * MINUTE) == alt(a);
    ScanMeaning(alt, h, a, 1, alt(a).value, None);
  }

  /** The windows planned at any two instants are the same or have no instant in common. */
  lemma WindowsNeverOverlap(s: Schedule, c: Camera, alt: int -> Option<real>, t: nat, u: nat, v: nat)
    requires At(s, c, alt, t).Some? && At(s, c, alt, u).Some?
    requires At(s, c, alt, t).value.Contains(v) && At(s, c, alt, u).value.Contains(v)
    requires s.window.LocalNoon? ==> Bracketing(s.zone.value, 720)
    ensures At(s, c, alt, t) == At(s, c, alt, u)
  {
    if s.window.DuskToDawn? {
      NightsNeverOverlap(s, c, alt, t, u, v);
    } else {
      RestartResumesWindow(s, c, alt, t, v);
      RestartResumesWindow(s, c, alt, u, v);
    }
  }

  lemma NightsNeverOverlap(s: Schedule, c: Camera, alt: int -> Option<real>, t: nat, u: nat, v: nat)
    requires s.window.DuskToDawn? && At(s, c, alt, t).Some? && At(s, c, alt, u).Some?
    requires At(s, c, alt, t).value.Contains(v) && At(s, c, alt, u).value.Contains(v)
    ensures At(s, c, alt, t) == At(s, c, alt, u)
  {
    SpanInSolarDay(s, c, alt, t, v);
    SpanInSolarDay(s, c, alt, u, v);
  }

  lemma SpanInSolarDay(s: Schedule, c: Camera, alt: int -> Option<real>, t: nat, v: nat)
    requires s.window.DuskToDawn? && At(s, c, alt, t).Some? && At(s, c, alt, t).value.Contains(v)
    ensures Located(c) && SolarAnchor(c.longitude.value, v) == SolarAnchor(c.longitude.value, t)
  {
    var lon := c.longitude.value;
    NightInDay(alt, Threshold(s.twilight), SolarAnchor(lon, t));
    AnchorHolds(lon, t, v);
  }

  /** The sun's altitude at which each kind of twilight ends. */
  predicate EndsAt(t: Twilight, altitude: real) {
    && (t.Sunset? ==> altitude == -0.833)
    && (t.Civil? ==> altitude == -6.0)
    && (t.Astronomical? ==> altitude == -18.0)
  }

  /** A dusk-to-dawn window starts and ends at the crossings of a night that holds the instant, the
      first night after the last solar noon at the camera's longitude. */
  lemma DuskToDawnIsNight(s: Schedule, c: Camera, alt: int -> Option<real>, t: nat)
    returns (noon: int, day: int, altitude: real, dusk: nat, dawn: nat)
    requires s.window.DuskToDawn? && At(s, c, alt, t).Some?
    ensures c.longitude.Some? && SolarNoon(c.longitude.value, noon, day) && noon <= t < noon + 86400000
    ensures EndsAt(s.twilight, altitude) && IsNight(alt, altitude, noon, dusk, dawn)
    ensures At(s, c, alt, t).value.startMs == noon + dusk * 60000 <= t
    ensures At(s, c, alt, t).value.endMs == noon + dawn * 60000 > t
  {
    noon, altitude := SolarAnchor(c.longitude.value, t), Threshold(s.twilight);
    day := AnchorIsSolarNoon(c.longitude.value, t);
    NightInDay(alt, altitude, noon);
    dusk, dawn := Night(alt, altitude, noon).value.0, Night(alt, altitude, noon).value.1;
  }

  /** A daily delivery waits for the first configured local time at or after the window's end. */
  lemma FirstSendTime(s: Schedule, c: Camera, alt: int -> Option<real>, t: nat, d: int)
    requires s.delivery.LocalTime? && At(s, c, alt, t).Some?
    requires Bracketing(s.zone.value, s.sendMinute)
    requires Increasing(s.zone.value, s.sendMinute)
    requires Boundary(s.zone.value, d, s.sendMinute).Some?
    ensures var w := At(s, c, alt, t).value;
            Boundary(s.zone.value, d, s.sendMinute).value >= w.endMs ==>
              w.sendAfterMs <= Boundary(s.zone.value, d, s.sendMinute).value
  {
    var w := At(s, c, alt, t).value;
    assert SendAfter(s, s.zone.value, w.endMs) == Some(w.sendAfterMs);
    var date := s.zone.value.date(w.endMs);
    if d < date {
      assert Boundary(s.zone.value, d, s.sendMinute).value < w.endMs;
    }
  }

  // ---------------------------------------------------------------- a refused restart

  /** A zone that skips local date 2 and is otherwise UTC. */
  function Skips(): Zone {
    Zone((t: int) => if t < 2 * DAY then t / DAY else t / DAY + 1,
         (m: int) => if m < 2880 then Single(m * MINUTE) else if m < 4320 then NoSuchTime else Single((m - 1440) * MINUTE))
  }

  /** Night from minute 600 to minute 900 of every UTC day. */
  function MidnightNoon(): int -> Option<real> {
    (t: int) => Some(if 600 * MINUTE <= t % DAY < 900 * MINUTE then -10.0 else 10.0)
  }

  function Displayed(): Schedule {
    Schedule(DuskToDawn, Some(Skips()), Sunset, Immediate, 0)
  }

  lemma NightOfDayOne()
    ensures Night(MidnightNoon(), -0.833, DAY) == Some((600, 900))
  {
    assert forall m :: 0 <= m <= 1440 ==> MidnightNoon()(DAY + m * MINUTE).Some?;
    forall m | 0 <= m < 1440
      ensures Sampled(MidnightNoon(), DAY, m) == if 600 <= m < 900 then -10.0 else 10.0
    {
      assert (DAY + m * MINUTE) % DAY == m * MINUTE;
    }
    assert IsNight(MidnightNoon(), -0.833, DAY, 600, 900);
    NightMeaning(MidnightNoon(), -0.833, DAY);
  }

  lemma NoNoonOnDateTwo()
    ensures Boundary(Skips(), 2, 720).None?
    ensures Boundary(Skips(), 0, 720) == Some(720 * MINUTE) && Boundary(Skips(), 1, 720) == Some(DAY + 720 * MINUTE)
  {
    FirstValidMeaning(Skips(), 3600, 180);
  }

  const DATELINE := Camera(Some(0.0), Some(180.0))

  lemma PlannedBeforeNoon()
    ensures At(Displayed(), DATELINE, MidnightNoon(), DAY + 650 * MINUTE)
            == Some(Window(DAY + 600 * MINUTE, DAY + 900 * MINUTE, DAY + 900 * MINUTE))
  {
    NightOfDayOne();
    NoNoonOnDateTwo();
    var t := DAY + 650 * MINUTE;
    assert Skips().date(t) == 1;
    assert Noons(Skips(), t).Some?;
    assert SolarAnchor(180.0, t) == DAY;
    assert Span(Displayed(), DATELINE, MidnightNoon(), t) == Some((DAY + 600 * MINUTE, DAY + 900 * MINUTE));
  }

  lemma RefusedAfterNoon()
    ensures At(Displayed(), DATELINE, MidnightNoon(), DAY + 800 * MINUTE).None?
  {
    NoNoonOnDateTwo();
    assert Skips().date(DAY + 800 * MINUTE) == 1;
    assert Noons(Skips(), DAY + 800 * MINUTE).None?;
  }

  /** The local noons matter although the night does not use them: with a display zone that skips a
      date, a night is planned at one of its instants and refused at another. */
  lemma RestartRefused()
    ensures exists s, c, alt, t, u ::
              At(s, c, alt, t).Some? && At(s, c, alt, t).value.Contains(u) && At(s, c, alt, u).None?
  {
    PlannedBeforeNoon();
    RefusedAfterNoon();
    var t, u := DAY + 650 * MINUTE, DAY + 800 * MINUTE;
    assert At(Displayed(), DATELINE, MidnightNoon(), t).value.Contains(u)
        && At(Displayed(), DATELINE, MidnightNoon(), u).None?;
  }
}
