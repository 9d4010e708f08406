/** Settings, consent and trigger rules of the sharing agent
    (crates/autopiercam-chatstronomy: service.rs, triggers.rs, observation.rs). */
module SharingTypes {

  datatype Option<+T> = None | Some(value: T)

  /** 2^53 - 1, the largest integer the Hub accepts. */
  const MAX_INTEGER := 9007199254740991

  datatype TemperatureSource = Off | Focuser | External

  datatype OverlayOptions = OverlayOptions(
    telescopeId: Option<int>,
    target: bool,
    exposureCount: bool,
    temperature: TemperatureSource)
  {
    predicate Requested() {
      target || exposureCount || temperature != Off
    }

    predicate Valid() {
      && (telescopeId.Some? ==> 0 < telescopeId.value <= MAX_INTEGER)
      && (Requested() ==> telescopeId.Some?)
    }
  }

  const NO_OVERLAYS := OverlayOptions(None, false, false, Off)

  /** The operator's choices. A Hub origin is kept in its canonical form; "" is "not set". */
  datatype Preferences = Preferences(
    hubOrigin: string,
    enabled: bool,
    snapshots: bool,
    sceneChanges: bool,
    dayNight: bool,
    sceneThresholdPercent: nat,
    intervalMinutes: nat,
    telescopeEvents: bool,
    observationContext: bool,
    timelapses: bool,
    overlays: OverlayOptions,
    chatConfiguration: bool,
    burstCount: nat,
    spacingSeconds: nat)
  {
    predicate Valid() {
      && overlays.Valid()
      && intervalMinutes <= 1440
      && 1 <= burstCount <= 3
      && 60 <= spacingSeconds <= 600
      && (enabled ==> hubOrigin != "")
      && 5 <= sceneThresholdPercent <= 80
    }

    function SwitchedOff(): Preferences {
      this.(enabled := false)
    }

    /** What `forget` leaves of the preferences. */
    function Forgotten(): Preferences {
      this.(enabled := false, snapshots := false, sceneChanges := false, dayNight := false,
            intervalMinutes := 0, telescopeEvents := false, observationContext := false,
            timelapses := false, overlays := NO_OVERLAYS, chatConfiguration := false)
    }
  }

  datatype TriggerRules = TriggerRules(
    intervalMinutes: nat,
    sceneChanges: bool,
    dayNight: bool,
    telescopeEvents: bool,
    burstCount: nat,
    spacingSeconds: nat)
  {
    static function Local(p: Preferences): TriggerRules {
      TriggerRules(p.intervalMinutes, p.sceneChanges, p.dayNight, p.telescopeEvents,
                   p.burstCount, p.spacingSeconds)
    }

    /** These rules ask for nothing that the local preferences `p` do not permit. */
    predicate AllowedBy(p: Preferences) {
      && intervalMinutes <= 1440
      && (intervalMinutes == 0 || (p.intervalMinutes > 0 && intervalMinutes >= p.intervalMinutes))
      && (sceneChanges ==> p.sceneChanges)
      && (dayNight ==> p.dayNight)
      && (telescopeEvents ==> p.telescopeEvents)
      && 1 <= burstCount <= p.burstCount
      && p.spacingSeconds <= spacingSeconds <= 600
    }
  }

  datatype ConsentKey = ConsentKey(installation: nat, device: int, revision: nat, hubOrigin: string)

  datatype Settings = Settings(
    installation: nat,
    revision: nat,
    device: Option<int>,
    preferences: Preferences,
    remoteRules: Option<TriggerRules>)
  {
    function Rules(): TriggerRules {
      if remoteRules.Some? && preferences.chatConfiguration && remoteRules.value.AllowedBy(preferences)
      then remoteRules.value
      else TriggerRules.Local(preferences)
    }

    function Consent(): Option<ConsentKey> {
      if device.Some?
      then Some(ConsentKey(installation, device.value, revision, preferences.hubOrigin))
      else None
    }

    function SwitchedOff(): Settings {
      this.(preferences := preferences.SwitchedOff())
    }

    /** The checks `start_with_store` makes of a stored settings file. */
    predicate Loadable() {
      && preferences.Valid()
      && (remoteRules.Some? ==> preferences.chatConfiguration && remoteRules.value.AllowedBy(preferences))
      && (device.Some? ==> device.value > 0)
    }

    /** Timelapses of a paired camera may be uploaded. */
    predicate SharesTimelapses() {
      preferences.enabled && preferences.timelapses && device.Some?
    }
  }

  /** Whatever rules are stored, those in force start nothing the operator has switched off, nor more
      often, in larger bursts or closer together; and stored rules are in force exactly when chat
      configuration is permitted and they stay within these limits. */
  lemma ActiveRulesWithinConsent(s: Settings)
    requires s.preferences.Valid()
    ensures s.Rules().AllowedBy(s.preferences)
    ensures var r, p := s.Rules(), s.preferences;
            && (r.sceneChanges ==> p.sceneChanges) && (r.dayNight ==> p.dayNight)
            && (r.telescopeEvents ==> p.telescopeEvents)
            && (r.intervalMinutes == 0 || 0 < p.intervalMinutes <= r.intervalMinutes <= 1440)
            && 1 <= r.burstCount <= p.burstCount && p.spacingSeconds <= r.spacingSeconds <= 600
    ensures s.remoteRules.Some? ==>
              var r, p := s.remoteRules.value, s.preferences;
              if && p.chatConfiguration
                 && (r.sceneChanges ==> p.sceneChanges) && (r.dayNight ==> p.dayNight)
                 && (r.telescopeEvents ==> p.telescopeEvents)
                 && (r.intervalMinutes == 0 || 0 < p.intervalMinutes <= r.intervalMinutes <= 1440)
                 && 1 <= r.burstCount <= p.burstCount && p.spacingSeconds <= r.spacingSeconds <= 600
              then s.Rules() == r
              else s.Rules() == TriggerRules(p.intervalMinutes, p.sceneChanges, p.dayNight, p.telescopeEvents,
                                             p.burstCount, p.spacingSeconds)
  {
  }
}
