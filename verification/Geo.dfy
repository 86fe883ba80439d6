/** The location rules a clock event is judged by (backend/internal/entry/geo.go). */
module Geo {
  import opened Options

  /** Instants and durations in nanoseconds; a Go duration is a 64-bit integer. */
  type Time = int
  const MAX_DURATION: int := 0x7fff_ffff_ffff_ffff
  const MIN_DURATION: int := -0x8000_0000_0000_0000

  /** A coordinate or accuracy that reached the rules as NaN or infinity is Garbage / NotFinite. */
  datatype Location = Point(lat: real, lng: real) | Garbage
  datatype Reading = Metres(m: real) | NotFinite

  datatype Fix = Fix(at: Time, loc: Location, accuracy: Reading, mocked: bool, queued: bool)

  /**
   * The bounds of config.Config the rules read. `distance` stands for the rounded haversine: the
   * rules only ever compare whole metres.
   */
  datatype Config = Config(
    maxAccuracyM: int, maxClockSkew: int, maxQueuedAge: int, anchorRadiusM: int,
    distance: (Location, Location) -> nat)

  /**
   * What the results here need of a configuration. Loading checks only that the queued age is no shorter
   * than the skew; a negative radius, or an age of the longest duration there is, would load too.
   */
  ghost predicate ValidConfig(cfg: Config) {
    && MIN_DURATION < cfg.maxClockSkew <= cfg.maxQueuedAge < MAX_DURATION
    && 0 <= cfg.anchorRadiusM
    && forall p :: cfg.distance(p, p) == 0
  }

  datatype Refusal =
    | InvalidArgument | MockedLocation | LowAccuracy | StaleTimestamp | QueuedTooOld
    | OutOfRange(distanceM: nat, limitM: int)
    | NotMember | NotFound | OpenEntryExists | NoOpenEntry

  /** time.Time.Sub: the difference, saturated at the ends of a Go duration. */
  function Sub(t: Time, u: Time): int {
    var d := t - u;
    if d > MAX_DURATION then MAX_DURATION else if d < MIN_DURATION then MIN_DURATION else d
  }

  predicate WithinAnchor(cfg: Config, loc: Location, anchor: Location) {
    loc.Point? && anchor.Point? && cfg.distance(loc, anchor) <= cfg.anchorRadiusM
  }

  /** The first rule the fix violates, in the order the rules are applied. */
  function ValidateFix(cfg: Config, now: Time, f: Fix, anchor: Option<Location>): Option<Refusal> {
    if !f.loc.Point? || !f.accuracy.Metres? || anchor == Some(Garbage) then Some(InvalidArgument)
    else if f.mocked then Some(MockedLocation)
    else if f.accuracy.m > cfg.maxAccuracyM as real then Some(LowAccuracy)
    else
      var maxAge := if f.queued then cfg.maxQueuedAge else cfg.maxClockSkew;
      var age := Sub(now, f.at);
      if age < -cfg.maxClockSkew then Some(StaleTimestamp)
      else if age > maxAge then Some(if f.queued then QueuedTooOld else StaleTimestamp)
      else if anchor.Some? && !WithinAnchor(cfg, f.loc, anchor.value)
      then Some(OutOfRange(cfg.distance(f.loc, anchor.value), cfg.anchorRadiusM))
      else None
  }

  function ValidateClose(cfg: Config, now: Time, f: Fix, anchor: Option<Location>): Option<Refusal> {
    ValidateFix(cfg.(maxQueuedAge := MAX_DURATION), now, f, anchor)
  }

  /** The rules that do not look at the clock. */
  predicate SoundReading(cfg: Config, f: Fix, anchor: Option<Location>) {
    && f.loc.Point? && f.accuracy.Metres? && !f.mocked
    && f.accuracy.m <= cfg.maxAccuracyM as real
    && (anchor.Some? ==> WithinAnchor(cfg, f.loc, anchor.value))
  }

  /** Acceptance in plain (unsaturated) arithmetic: saturation never decides a verdict. */
  lemma FixAcceptedIff(cfg: Config, now: Time, f: Fix, anchor: Option<Location>)
    requires ValidConfig(cfg)
    ensures ValidateFix(cfg, now, f, anchor) == None <==>
            && SoundReading(cfg, f, anchor)
            && f.at - cfg.maxClockSkew <= now
            && now <= f.at + (if f.queued then cfg.maxQueuedAge else cfg.maxClockSkew)
  {
  }

  /** A queued close has no past bound at all: however far back, only the future bound is left. */
  lemma CloseAcceptedIff(cfg: Config, now: Time, f: Fix, anchor: Option<Location>)
    requires ValidConfig(cfg)
    ensures ValidateClose(cfg, now, f, anchor) == None <==>
            && SoundReading(cfg, f, anchor)
            && f.at - cfg.maxClockSkew <= now
            && (!f.queued ==> now <= f.at + cfg.maxClockSkew)
    ensures ValidateClose(cfg, now, f, anchor) != Some(QueuedTooOld)
    ensures ValidateFix(cfg, now, f, anchor) == None ==> ValidateClose(cfg, now, f, anchor) == None
    ensures var v := ValidateFix(cfg, now, f, anchor);
            v != None && v != Some(QueuedTooOld) ==> ValidateClose(cfg, now, f, anchor) == v
  {
  }

  predicate Readable(f: Fix, anchor: Option<Location>) {
    f.loc.Point? && f.accuracy.Metres? && anchor != Some(Garbage)
  }

  /** The device is honest and precise enough; the rules about time and place come after these. */
  predicate Trusted(cfg: Config, f: Fix, anchor: Option<Location>) {
    Readable(f, anchor) && !f.mocked && f.accuracy.m <= cfg.maxAccuracyM as real
  }

  predicate FromTheFuture(cfg: Config, now: Time, f: Fix) {
    now < f.at - cfg.maxClockSkew
  }

  predicate TooLate(cfg: Config, now: Time, f: Fix) {
    now > f.at + if f.queued then cfg.maxQueuedAge else cfg.maxClockSkew
  }

  /** Which refusal a fix gets, in plain arithmetic: each rule speaks only where the earlier ones are content. */
  lemma EachRefusalIff(cfg: Config, now: Time, f: Fix, anchor: Option<Location>)
    requires ValidConfig(cfg)
    ensures var v := ValidateFix(cfg, now, f, anchor);
            && (v == Some(InvalidArgument) <==> !Readable(f, anchor))
            && (v == Some(MockedLocation) <==> Readable(f, anchor) && f.mocked)
            && (v == Some(LowAccuracy) <==> Readable(f, anchor) && !f.mocked && f.accuracy.m > cfg.maxAccuracyM as real)
            && (v == Some(StaleTimestamp) <==>
                  && Trusted(cfg, f, anchor)
                  && (FromTheFuture(cfg, now, f) || (!f.queued && TooLate(cfg, now, f))))
            && (v == Some(QueuedTooOld) <==>
                  && Trusted(cfg, f, anchor) && f.queued
                  && !FromTheFuture(cfg, now, f) && TooLate(cfg, now, f))
            && (v.Some? && v.value.OutOfRange? <==>
                  && Trusted(cfg, f, anchor) && !FromTheFuture(cfg, now, f) && !TooLate(cfg, now, f)
                  && anchor.Some? && cfg.distance(f.loc, anchor.value) > cfg.anchorRadiusM)
            && (v.Some? && v.value.OutOfRange? ==>
                  v.value.distanceM == cfg.distance(f.loc, anchor.value) > v.value.limitM == cfg.anchorRadiusM)
  {
  }
}
