/**
 * The instant a calendar day begins in a zone (startOfDay in web/src/lib/week.ts), searched for with
 * two probes, in a zone whose offset changes once near that day.
 */
module Zones {
  import opened Segments

  /** Offset `before` until instant `at`, offset `after` from then on. */
  datatype Transition = Transition(at: int, before: int, after: int)

  function ZoneOf(z: Transition): Zone {
    t => if t < z.at then z.before else z.after
  }

  function UtcMidnight(day: int): int {
    day * MINUTES_PER_DAY
  }

  function DayOf(tz: Zone, t: int): int {
    Zoned(tz, t).day
  }

  /** startOfDay: guess from UTC midnight, correct by the offset in force there, and choose. */
  function StartOfDay(day: int, tz: Zone): int {
    var guess := UtcMidnight(day) - tz(UtcMidnight(day));
    var corrected := UtcMidnight(day) - tz(guess);
    if DayOf(tz, corrected) == day then corrected
    else if guess > corrected then guess else corrected
  }

  /** Less than a day's jump, as every offset change is. */
  predicate Modest(z: Transition) {
    -MINUTES_PER_DAY < z.after - z.before < MINUTES_PER_DAY
  }

  /** The two instants that could be this local midnight, by the old offset and by the new one. */
  function OldMidnight(day: int, z: Transition): int {
    UtcMidnight(day) - z.before
  }

  function NewMidnight(day: int, z: Transition): int {
    UtcMidnight(day) - z.after
  }

  /** The clock shows minute zero of this day at t. */
  predicate IsMidnight(day: int, z: Transition, t: int) {
    WallClock(ZoneOf(z), t) == UtcMidnight(day)
  }

  lemma MidnightsAre(day: int, z: Transition, t: int)
    ensures IsMidnight(day, z, t) <==>
            (t == OldMidnight(day, z) && t < z.at) || (t == NewMidnight(day, z) && t >= z.at)
  {
  }

  /** No instant shows midnight: the clock jumped over it. */
  predicate Skipped(day: int, z: Transition) {
    NewMidnight(day, z) < z.at <= OldMidnight(day, z)
  }

  /** Two instants show midnight: the clock was set back through it. */
  predicate Repeated(day: int, z: Transition) {
    OldMidnight(day, z) < z.at <= NewMidnight(day, z)
  }

  lemma DayIs(tz: Zone, t: int, day: int)
    ensures DayOf(tz, t) == day <==> UtcMidnight(day) <= WallClock(tz, t) < UtcMidnight(day) + MINUTES_PER_DAY
  {
  }

  /** Where the search ends, by what the transition does to this midnight. */
  lemma WhereItLands(day: int, z: Transition)
    requires Modest(z)
    ensures var s := StartOfDay(day, ZoneOf(z));
            s == if Skipped(day, z) then OldMidnight(day, z)
                 else if Repeated(day, z)
                   then (if UtcMidnight(day) < z.at then OldMidnight(day, z) else NewMidnight(day, z))
                 else if OldMidnight(day, z) < z.at then OldMidnight(day, z) else NewMidnight(day, z)
  {
    DayIs(ZoneOf(z), OldMidnight(day, z), day);
    DayIs(ZoneOf(z), NewMidnight(day, z), day);
  }

  /** What the clock on the wall shows at t, in minutes since the midnight of day 0. */
  function WallAt(z: Transition, t: int): int {
    t + if t < z.at then z.before else z.after
  }

  /** The instant found is always on the day asked for, and is its midnight whenever the day has one. */
  lemma TwoProbesSuffice(day: int, z: Transition)
    requires Modest(z)
    ensures var s := StartOfDay(day, ZoneOf(z));
            && day * 1440 <= WallAt(z, s) < (day + 1) * 1440
            && (WallAt(z, s) == day * 1440 <==> !Skipped(day, z))
            && (Skipped(day, z) <==> forall t {:trigger WallAt(z, t)} :: WallAt(z, t) != day * 1440)
  {
    WhereItLands(day, z);
    var s := StartOfDay(day, ZoneOf(z));
    DayIs(ZoneOf(z), s, day);
    MidnightsAre(day, z, s);
    if Skipped(day, z) {
      forall t
        ensures WallAt(z, t) != day * 1440
      {
        MidnightsAre(day, z, t);
      }
    } else {
      assert WallAt(z, s) == day * 1440;
    }
  }

  /** Where the clock jumps forward exactly at midnight, the day begins at the jump. */
  lemma JumpAtMidnight(day: int, z: Transition)
    requires Modest(z) && z.after > z.before && z.at == OldMidnight(day, z)
    ensures StartOfDay(day, ZoneOf(z)) == z.at
  {
    WhereItLands(day, z);
  }

  predicate ShowsDay(day: int, z: Transition, t: int) {
    day * 1440 <= WallAt(z, t) < (day + 1) * 1440
  }

  ghost predicate FirstInstant(day: int, z: Transition, t: int) {
    ShowsDay(day, z, t) && forall u {:trigger ShowsDay(day, z, u)} :: u < t ==> !ShowsDay(day, z, u)
  }

  /** Where the search does not find the very beginning of the day. */
  predicate Late(day: int, z: Transition) {
    || (Repeated(day, z) && z.at <= UtcMidnight(day))
    || (Skipped(day, z) && z.at < OldMidnight(day, z))
  }

  /** The instant found is the first of its day, except in exactly the two situations of Late. */
  lemma FirstInstantIff(day: int, z: Transition)
    requires Modest(z)
    ensures FirstInstant(day, z, StartOfDay(day, ZoneOf(z))) <==> !Late(day, z)
  {
    var tz := ZoneOf(z);
    var s := StartOfDay(day, tz);
    WhereItLands(day, z);
    TwoProbesSuffice(day, z);
    if Late(day, z) {
      var earlier := if Repeated(day, z) then OldMidnight(day, z) else z.at;
      DayIs(tz, earlier, day);
      assert earlier < s && ShowsDay(day, z, earlier);
    } else {
      forall u | u < s
        ensures !ShowsDay(day, z, u)
      {
        DayIs(tz, u, day);
      }
    }
  }

  /**
   * A repeated midnight: the later instant is returned exactly when the change comes no later than
   * UTC midnight. The comment on startOfDay says the later one always is.
   */
  lemma WhichRepeatedMidnight(day: int, z: Transition)
    requires Modest(z) && Repeated(day, z)
    ensures WallAt(z, OldMidnight(day, z)) == WallAt(z, NewMidnight(day, z)) == day * 1440
    ensures OldMidnight(day, z) < NewMidnight(day, z)
    ensures StartOfDay(day, ZoneOf(z)) == if z.at <= UtcMidnight(day) then NewMidnight(day, z) else OldMidnight(day, z)
  {
    WhereItLands(day, z);
    MidnightsAre(day, z, OldMidnight(day, z));
    MidnightsAre(day, z, NewMidnight(day, z));
  }

  /**
   * A zone three hours behind UTC falling back an hour at one past midnight: minutes 180 and 240 both show
   * midnight, and the earlier is returned.
   */
  lemma EarlierMidnightReturned()
    ensures var z := Transition(181, -180, -240);
            WallAt(z, 180) == WallAt(z, 240) == 0 && StartOfDay(0, ZoneOf(z)) == 180
  {
    WhichRepeatedMidnight(0, Transition(181, -180, -240));
  }
}
