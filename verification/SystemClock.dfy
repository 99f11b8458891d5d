/**
 The clock: a ranked ladder of sources over two clocks, time since boot that a clock set
 does not move, and a sub-second read that retries across a seconds carry.
*/
module SystemClock {
  import opened LogFormat

  const OLDEST_ACCEPTABLE: int := 1640995200
  const USEC_PER_SEC: nat := 1_000_000
  const R64_TICKS_PER_SEC: nat := 128

  predicate IsPlausible(t: int) {
    OLDEST_ACCEPTABLE <= t <= 0xFFFF_FFFF
  }

  function Narrow(t: int): u32 {
    t % 0x1_0000_0000
  }

  /** Both clocks and the three fields that say what the internal one's reading means. */
  datatype Clock = Clock(rtc: int, running: bool, present: bool, ds1307: int, epoch: u32, source: Source) {
    /** Whole seconds since boot, as read. */
    function SinceBoot(): nat {
      if rtc > epoch then rtc - epoch else 0
    }

    /** `n` seconds pass; the DS1307 keeps time, and the internal clock if it is counting. */
    function Ticked(n: nat): Clock {
      this.(rtc := if running then rtc + n else rtc, ds1307 := ds1307 + n)
    }
  }

  predicate MaySet(c: Clock, t: int, from: Source) {
    IsPlausible(t) && from.Rank() <= c.source.Rank()
  }

  /** The DS1307 after a time is accepted and reaches it. */
  function Forwarded(c: Clock, t: int, from: Source): int {
    if c.present && from != Ds1307 then t else c.ds1307
  }

  class SystemTime {
    // The internal RTC, and whether it is counting.
    var rtc: int
    var running: bool
    // The battery-backed clock on the bus.
    var onBus: bool
    var ds1307: int

    var bootEpoch: u32
    var source: Source
    var ds1307Present: bool
    var foundRunning: bool

    constructor (rtc: int, running: bool, onBus: bool, ds1307: int)
      ensures this.rtc == rtc && this.running == running && this.onBus == onBus && this.ds1307 == ds1307
      ensures source == NoSource && bootEpoch == 0 && !ds1307Present && !foundRunning
    {
      this.rtc, this.running, this.onBus, this.ds1307 := rtc, running, onBus, ds1307;
      bootEpoch, source, ds1307Present, foundRunning := 0, NoSource, false, false;
    }

    ghost function State(): Clock
      reads this
    {
      Clock(rtc, running, ds1307Present, ds1307, bootEpoch, source)
    }

    /** Selects the initial source. `writes` says whether the internal RTC takes a time it is given. */
    method Begin(writes: bool) returns (usable: bool)
      modifies this
      ensures var seeded := onBus && IsPlausible(old(ds1307)) && writes;
        && foundRunning == (old(running) && IsPlausible(old(rtc)))
        && source == (if seeded then Ds1307 else if foundRunning then Survived else NoSource)
        && rtc == (if seeded then ds1307 else if old(running) || !writes then old(rtc) else 0)
      ensures usable == (source != NoSource) && ds1307Present == onBus
      ensures running == (old(running) || writes) && bootEpoch == Narrow(rtc)
      ensures onBus == old(onBus) && ds1307 == old(ds1307)
      ensures State() == Restarted(old(rtc), old(running), onBus, ds1307, writes)
      ensures 0 <= rtc <= 0xFFFF_FFFF ==> bootEpoch == rtc
    {
      ds1307Present := onBus;
      foundRunning := running && IsPlausible(rtc);

      var seededFromDs1307 := false;
      if ds1307Present {
        var fromDs1307 := ds1307;
        if IsPlausible(fromDs1307) && writes {
          rtc, running := fromDs1307, true;
          seededFromDs1307 := true;
        }
      }

      if seededFromDs1307 {
        source := Ds1307;
      } else if foundRunning {
        source := Survived;
      } else {
        if !running && writes {
          rtc, running := 0, true;
        }
        source := NoSource;
      }

      bootEpoch := Narrow(rtc);
      usable := source != NoSource;
    }

    /**
     Applies a time if it is plausible and its source no worse than the one held. `late`
     seconds pass between reading the clock and setting it; `writes` as for Begin.
    */
    method SetUnixTime(unixTime: int, from: Source, late: nat, writes: bool) returns (accepted: bool, clockMoved: bool)
      modifies this`rtc, this`running, this`ds1307, this`bootEpoch, this`source
      ensures accepted == Accepts(old(State()), unixTime, from, writes)
      ensures clockMoved == (accepted && unixTime != old(rtc))
      ensures State() == AfterSet(old(State()), unixTime, from, late, writes)
    {
      clockMoved := false;
      if !IsPlausible(unixTime) || from.Rank() > source.Rank() {
        return false, false;
      }

      var previous := rtc;
      if previous == unixTime {
        var promoting := from != source;
        source := from;
        if promoting && ds1307Present && from != Ds1307 && ds1307 != unixTime {
          ds1307 := unixTime;
        }
        return true, false;
      }

      // What passes before the clock is written.
      rtc, ds1307 := if running then rtc + late else rtc, ds1307 + late;
      if !writes {
        return false, false;
      }
      rtc, running := unixTime, true;
      clockMoved := true;
      bootEpoch := Narrow(bootEpoch + (unixTime - previous));

      if ds1307Present && from != Ds1307 && ds1307 != unixTime {
        ds1307 := unixTime;
      }
      source := from;
      accepted := true;
    }

    /** Brings the internal clock back to the DS1307, unless something better has set it. */
    method ReseedFromDs1307(late: nat, writes: bool) returns (accepted: bool, clockMoved: bool)
      modifies this`rtc, this`running, this`ds1307, this`bootEpoch, this`source
      ensures accepted == (ds1307Present && Accepts(old(State()), old(ds1307), Ds1307, writes))
      ensures clockMoved == (accepted && old(ds1307) != old(rtc))
      ensures State() ==
        if ds1307Present then AfterSet(old(State()), old(ds1307), Ds1307, late, writes) else old(State())
    {
      if !ds1307Present {
        return false, false;
      }
      accepted, clockMoved := SetUnixTime(ds1307, Ds1307, late, writes);
    }

    /** The other direction, for a clock the ground has set. */
    method PushToDs1307() returns (pushed: bool)
      modifies this`ds1307
      ensures pushed == (ds1307Present && IsPlausible(rtc) && old(ds1307) != rtc)
      ensures State() == AfterPush(old(State()))
    {
      if !ds1307Present || !IsPlausible(rtc) || ds1307 == rtc {
        return false;
      }
      ds1307 := rtc;
      pushed := true;
    }
  }

  /** The clock after a restart that finds its two clocks so. */
  function Restarted(rtc: int, running: bool, onBus: bool, ds1307: int, writes: bool): Clock {
    var seeded := onBus && IsPlausible(ds1307) && writes;
    var now := if seeded then ds1307 else if running || !writes then rtc else 0;
    var source := if seeded then Ds1307 else if running && IsPlausible(rtc) then Survived else NoSource;
    Clock(now, running || writes, onBus, ds1307, Narrow(now), source)
  }

  /** A repeat of the second already held needs no write; a moved clock needs one that works. */
  predicate Accepts(c: Clock, t: int, from: Source, writes: bool) {
    MaySet(c, t, from) && (t == c.rtc || writes)
  }

  function AfterSet(c: Clock, t: int, from: Source, late: nat, writes: bool): Clock {
    if !MaySet(c, t, from) then c
    else if t == c.rtc then
      c.(source := from, ds1307 := if from != c.source then Forwarded(c, t, from) else c.ds1307)
    else if !writes then c.Ticked(late)
    else
      c.(rtc := t, running := true, source := from, epoch := Narrow(c.epoch + (t - c.rtc)),
         ds1307 := Forwarded(c.Ticked(late), t, from))
  }

  function AfterPush(c: Clock): Clock {
    if c.present && IsPlausible(c.rtc) then c.(ds1307 := c.rtc) else c
  }

  // -------------------------------------------------------------------------
  // Runs
  // -------------------------------------------------------------------------

  datatype Happening =
    | Tick
    | Set(unixTime: int, from: Source, late: nat, writes: bool)
    | Reseed(late: nat, writes: bool)
    | Push
    | Drift(reading: int)   // the DS1307 does not keep the same time

  function After(c: Clock, h: Happening): Clock {
    match h
    case Tick => c.Ticked(1)
    case Set(t, from, late, writes) => AfterSet(c, t, from, late, writes)
    case Reseed(late, writes) => if c.present then AfterSet(c, c.ds1307, Ds1307, late, writes) else c
    case Push => AfterPush(c)
    case Drift(reading) => c.(ds1307 := reading)
  }

  function AfterAll(c: Clock, hs: seq<Happening>): Clock
    decreases |hs|
  {
    if hs == [] then c else AfterAll(After(c, hs[0]), hs[1..])
  }

  /** The set `h` amounts to, if it is one that reaches the clock write. */
  predicate TriesToMove(c: Clock, h: Happening) {
    match h
    case Set(t, from, _, _) => MaySet(c, t, from) && t != c.rtc
    case Reseed(_, _) => c.present && MaySet(c, c.ds1307, Ds1307) && c.ds1307 != c.rtc
    case _ => false
  }

  /** The seconds that really pass during `h`. */
  function Passes(c: Clock, h: Happening): nat {
    if h.Tick? then 1 else if TriesToMove(c, h) then h.late else 0
  }

  /** Those a set overwrites: what ticked between its read of the clock and its write. */
  function Loses(c: Clock, h: Happening): nat {
    if TriesToMove(c, h) && h.writes then h.late else 0
  }

  function Passed(c: Clock, hs: seq<Happening>): nat
    decreases |hs|
  {
    if hs == [] then 0 else Passes(c, hs[0]) + Passed(After(c, hs[0]), hs[1..])
  }

  function Lost(c: Clock, hs: seq<Happening>): nat
    decreases |hs|
  {
    if hs == [] then 0 else Loses(c, hs[0]) + Lost(After(c, hs[0]), hs[1..])
  }

  /** The clock has been up `up` seconds by its own count, and the epoch still holds its boot. */
  predicate Consistent(c: Clock, up: nat) {
    c.running && c.rtc - c.epoch == up
  }

  /** The shifted epoch survives its narrowing exactly while the uptime is no more than the time set. */
  lemma EpochFollowsTheClock(c: Clock, up: nat, t: int)
    requires Consistent(c, up) && IsPlausible(t)
    ensures c.epoch + (t - c.rtc) == t - up
    ensures Narrow(c.epoch + (t - c.rtc)) == t - up <==> up <= t
  {
  }

  lemma StepKeepsElapsed(c: Clock, h: Happening, up: nat)
    requires Consistent(c, up) && up < OLDEST_ACCEPTABLE
    ensures Consistent(After(c, h), up + Passes(c, h) - Loses(c, h))
    ensures up + Passes(c, h) - Loses(c, h) >= up
  {
    if h.Set? && IsPlausible(h.unixTime) { EpochFollowsTheClock(c, up, h.unixTime); }
    if h.Reseed? && IsPlausible(c.ds1307) { EpochFollowsTheClock(c, up, c.ds1307); }
  }

  /**
   Over any ticks, and sets accepted, refused, forward, backward and repeated, elapsed time is
   the seconds that passed since it was `up`, less exactly those that ticked inside a set, as
   long as it is below the plausibility floor; and the 32-bit epoch loses nothing.
  */
  lemma {:induction false} ElapsedIsTicks(c: Clock, hs: seq<Happening>, up: nat)
    requires Consistent(c, up) && up + Passed(c, hs) < OLDEST_ACCEPTABLE
    ensures AfterAll(c, hs).SinceBoot() == up + Passed(c, hs) - Lost(c, hs)
    ensures Consistent(AfterAll(c, hs), AfterAll(c, hs).SinceBoot())
    decreases |hs|
  {
    if hs != [] {
      StepKeepsElapsed(c, hs[0], up);
      ElapsedIsTicks(After(c, hs[0]), hs[1..], up + Passes(c, hs[0]) - Loses(c, hs[0]));
    }
  }

  predicate SetsAreQuick(hs: seq<Happening>) {
    forall i | 0 <= i < |hs| :: (hs[i].Set? || hs[i].Reseed? ==> hs[i].late == 0)
  }

  function Ticks(hs: seq<Happening>): nat {
    if hs == [] then 0 else (if hs[0].Tick? then 1 else 0) + Ticks(hs[1..])
  }

  /** With each set's read and write in one second, elapsed time since begin is the ticks. */
  lemma {:induction false} QuickSetsLoseNothing(c: Clock, hs: seq<Happening>)
    requires SetsAreQuick(hs)
    ensures Passed(c, hs) == Ticks(hs) && Lost(c, hs) == 0
    decreases |hs|
  {
    if hs != [] {
      QuickSetsLoseNothing(After(c, hs[0]), hs[1..]);
    }
  }

  lemma ElapsedSinceBegin(c: Clock, hs: seq<Happening>)
    requires c.running && c.epoch == c.rtc   // as Begin leaves a clock that takes writes and reads below 2^32
    requires SetsAreQuick(hs) && Ticks(hs) < OLDEST_ACCEPTABLE
    ensures AfterAll(c, hs).SinceBoot() == Ticks(hs)
  {
    QuickSetsLoseNothing(c, hs);
    ElapsedIsTicks(c, hs, 0);
  }

  /** The rank never worsens, so a reseed changes nothing once the ground has set the clock. */
  lemma {:induction false} RankNeverWorsens(c: Clock, hs: seq<Happening>)
    ensures AfterAll(c, hs).source.Rank() <= c.source.Rank()
    ensures c.source == Ground ==> AfterAll(c, hs).source == Ground
    decreases |hs|
  {
    if hs != [] {
      RankNeverWorsens(After(c, hs[0]), hs[1..]);
    }
  }

  /** Plausible runs from 2022 to the last second 32 bits hold; a source yields only to its betters. */
  lemma AcceptedExactlyWhen(c: Clock, t: int, from: Source, writes: bool)
    ensures Accepts(c, t, from, writes) <==>
      && 1640995200 <= t <= 4294967295 && (t == c.rtc || writes)
      && match from
         case Ground => true
         case Ds1307 => c.source != Ground
         case Survived => c.source == Survived || c.source == NoSource
         case NoSource => c.source == NoSource
  {
  }

  /** A push sets a DS1307 that is there to a plausible reading, and never touches anything else. */
  lemma PushSetsTheOther(c: Clock)
    ensures var d := AfterPush(c);
      && d.ds1307 == (if c.present && 1640995200 <= c.rtc <= 4294967295 then c.rtc else c.ds1307)
      && d.rtc == c.rtc && d.epoch == c.epoch && d.source == c.source
      && d.running == c.running && d.present == c.present
  {
  }

  function Seconds(n: nat): seq<Happening> {
    seq(n, _ => Tick)
  }

  lemma {:induction false} SecondsPass(c: Clock, n: nat)
    ensures AfterAll(c, Seconds(n)) == c.Ticked(n)
    decreases n
  {
    if n > 0 {
      assert Seconds(n)[1..] == Seconds(n - 1);
      SecondsPass(c.Ticked(1), n - 1);
    }
  }

  lemma {:induction false} AfterConcat(c: Clock, a: seq<Happening>, b: seq<Happening>)
    ensures AfterAll(c, a + b) == AfterAll(AfterAll(c, a), b)
    decreases |a|
  {
    if a == [] {
      assert a + b == b;
    } else {
      assert (a + b)[0] == a[0] && (a + b)[1..] == a[1..] + b;
      AfterConcat(After(c, a[0]), a[1..], b);
    }
  }

  lemma PushThenSeconds(c: Clock, before: nat, drifted: int, after: nat)
    requires c.present && c.running && 1640995200 <= c.rtc && c.rtc + before <= 4294967295
    ensures AfterAll(c, Seconds(before) + ([Drift(drifted), Push] + Seconds(after))).ds1307 == c.rtc + before + after
  {
    var push := [Drift(drifted), Push];
    AfterConcat(c, Seconds(before), push + Seconds(after));
    SecondsPass(c, before);
    AfterConcat(c.Ticked(before), push, Seconds(after));
    DriftThenPush(c.Ticked(before), drifted);
    SecondsPass(AfterPush(c.Ticked(before).(ds1307 := drifted)), after);
  }

  lemma DriftThenPush(c: Clock, drifted: int)
    ensures AfterAll(c, [Drift(drifted), Push]) == AfterPush(c.(ds1307 := drifted))
  {
    var run := [Drift(drifted), Push];
    assert run[1..] == [Push] && [Push][1..] == [];
    var drift := c.(ds1307 := drifted);
    assert AfterAll(c, run) == AfterAll(drift, [Push]) == AfterAll(AfterPush(drift), []);
  }

  /**
   What a push is for: the ground sets the clock, whatever the DS1307 then drifts to, and
   some time later a push writes it out. However the internal clock fares in the restart
   that follows, the next start is seeded with the ground's time and all the seconds since.
  */
  lemma PushCarriesTheGroundsTime(
    c: Clock, t: int, late: nat, before: nat, drifted: int, after: nat, rtc: int, running: bool)
    requires c.present && c.running && 1640995200 <= t && t + before + after <= 4294967295
    ensures var held := AfterSet(c, t, Ground, late, true);
      var last := AfterAll(held, Seconds(before) + ([Drift(drifted), Push] + Seconds(after)));
      var next := Restarted(rtc, running, true, last.ds1307, true);
      next.rtc == t + before + after && next.source == Ds1307 && next.epoch == next.rtc && next.SinceBoot() == 0
  {
    PushThenSeconds(AfterSet(c, t, Ground, late, true), before, drifted, after);
  }

  /**
   What a set is for: accepted, the clock reads it, the source is the one that gave it, and a
   DS1307 it did not come from reads it too unless the same source repeats the second held;
   refused, neither clock, epoch nor source changes but for the time that passed.
  */
  lemma SetIsAllOrNothing(c: Clock, t: int, from: Source, late: nat, writes: bool)
    ensures var d := AfterSet(c, t, from, late, writes);
      && (Accepts(c, t, from, writes) ==>
            && d.rtc == t && d.source == from
            && d.ds1307 == (if c.present && from != Ds1307 && (t != c.rtc || from != c.source) then t
                            else if t != c.rtc then c.ds1307 + late else c.ds1307))
      && (!Accepts(c, t, from, writes) ==> d == c || d == c.Ticked(late))
      && (c.source == Ground && from != Ground ==> d == c)
  {
  }

  // -------------------------------------------------------------------------
  // Sub-second reads
  // -------------------------------------------------------------------------

  /** Attempts of one call; each reads the second, the counter, and the second again. */
  const ATTEMPTS := 4

  /** When each of a call's reads lands, in 1/128 s, and whether the clock answers it. */
  datatype Instant = Instant(at: nat, answers: bool)

  type Call = s: seq<Instant> | |s| == 3 * ATTEMPTS + 1 witness seq(13, i => Instant(0, true))

  predicate Ordered(call: Call) {
    forall i, j | 0 <= i <= j < |call| :: call[i].at <= call[j].at
  }

  function Second(t: nat): nat { t / R64_TICKS_PER_SEC }

  /** Exact time in microseconds at an instant, rounded down. */
  function Usec(t: nat): nat { t * 15625 / 2 }

  lemma UsecOfReading(t: nat)
    ensures Second(t) * USEC_PER_SEC + ((t % R64_TICKS_PER_SEC) * 15625) / 2 == Usec(t)
    ensures Second(t) * USEC_PER_SEC <= Usec(t) < Second(t) * USEC_PER_SEC + USEC_PER_SEC
  {
    assert t == 128 * Second(t) + t % 128;
  }

  /** Attempt `a` straddles no seconds carry. */
  predicate Matches(call: Call, a: nat)
    requires a < ATTEMPTS
  {
    Second(call[3 * a].at) == Second(call[3 * a + 2].at)
  }

  predicate Answered(call: Call, a: nat)
    requires a < ATTEMPTS
  {
    call[3 * a].answers && call[3 * a + 2].answers
  }

  datatype Ending = Failed | Exact(attempt: nat) | Fallback

  /** How a call ends that has come to attempt `a`: at the first that fails or matches. */
  function EndingFrom(call: Call, a: nat): (how: Ending)
    requires a <= ATTEMPTS
    ensures how.Exact? ==> a <= how.attempt < ATTEMPTS && Matches(call, how.attempt)
    ensures how.Fallback? ==> forall b: nat | a <= b < ATTEMPTS :: !Matches(call, b)
    decreases ATTEMPTS - a
  {
    if a == ATTEMPTS then (if call[3 * ATTEMPTS].answers then Fallback else Failed)
    else if !Answered(call, a) then Failed
    else if Matches(call, a) then Exact(a)
    else EndingFrom(call, a + 1)
  }

  function EndingOf(call: Call): (how: Ending)
    ensures how.Exact? ==> how.attempt < ATTEMPTS && Matches(call, how.attempt)
    ensures how.Fallback? ==> forall b: nat | b < ATTEMPTS :: !Matches(call, b)
  {
    EndingFrom(call, 0)
  }

  /** The instant a call that did not fail reports. */
  function InstantOf(call: Call): nat
    requires !EndingOf(call).Failed?
  {
    if EndingOf(call).Exact? then call[3 * EndingOf(call).attempt + 1].at else call[3 * ATTEMPTS].at
  }

  /** What a call reports: 0 for a failed read, else its instant, as exactly as its ending allows. */
  function Reported(call: Call): nat {
    match EndingOf(call)
    case Failed => 0
    case Exact(_) => Usec(InstantOf(call))
    case Fallback => Second(InstantOf(call)) * USEC_PER_SEC
  }

  method GetUnixTimeUsec(call: Call) returns (usec: nat)
    requires Ordered(call)
    ensures usec == Reported(call)
  {
    for attempt := 0 to ATTEMPTS
      invariant EndingOf(call) == EndingFrom(call, attempt)
    {
      if !call[3 * attempt].answers { return 0; }
      var before := call[3 * attempt].at / R64_TICKS_PER_SEC;
      var fraction := call[3 * attempt + 1].at % R64_TICKS_PER_SEC;
      if !call[3 * attempt + 2].answers { return 0; }
      var after := call[3 * attempt + 2].at / R64_TICKS_PER_SEC;
      if before == after {
        SameSecondBetween(call[3 * attempt].at, call[3 * attempt + 1].at, call[3 * attempt + 2].at);
        UsecOfReading(call[3 * attempt + 1].at);
        return before * USEC_PER_SEC + (fraction * 15625) / 2;
      }
    }
    if !call[3 * ATTEMPTS].answers { return 0; }
    usec := (call[3 * ATTEMPTS].at / R64_TICKS_PER_SEC) * USEC_PER_SEC;
  }

  lemma SameSecondBetween(a: nat, b: nat, c: nat)
    requires a <= b <= c && Second(a) == Second(c)
    ensures Second(b) == Second(a)
  {
  }

  lemma UsecMonotone(a: nat, b: nat)
    requires a <= b
    ensures Usec(a) <= Usec(b)
  {
  }

  predicate Before(first: Call, second: Call) {
    first[|first| - 1].at <= second[0].at
  }

  /** Exact readings of successive calls never decrease; a fallback is behind by under a second. */
  lemma ReadingsAdvance(first: Call, second: Call)
    requires Ordered(first) && Ordered(second) && Before(first, second)
    requires !EndingOf(first).Failed? && !EndingOf(second).Failed?
    ensures EndingOf(second).Exact? ==> Reported(first) <= Reported(second)
    ensures EndingOf(second).Fallback? ==>
      Reported(first) < Reported(second) + USEC_PER_SEC &&
      Reported(second) <= Usec(InstantOf(second)) < Reported(second) + USEC_PER_SEC
  {
    UsecOfReading(InstantOf(first));
    UsecOfReading(InstantOf(second));
    assert first[0].at <= InstantOf(first) <= first[12].at <= second[0].at <= InstantOf(second);
    UsecMonotone(InstantOf(first), InstantOf(second));
  }

  lemma FourCarriesTakeTime(call: Call)
    requires Ordered(call) && !Matches(call, 0) && !Matches(call, 1) && !Matches(call, 2) && !Matches(call, 3)
    ensures call[11].at - call[0].at > 3 * R64_TICKS_PER_SEC
  {
    assert Second(call[11].at) >= Second(call[0].at) + 4;
  }

  lemma {:induction false} AnsweredCallsDoNotFail(call: Call, a: nat)
    requires a <= ATTEMPTS && forall i | 0 <= i < |call| :: call[i].answers
    ensures !EndingFrom(call, a).Failed?
    decreases ATTEMPTS - a
  {
    if a < ATTEMPTS { AnsweredCallsDoNotFail(call, a + 1); }
  }

  /** The fallback needs a carry in every attempt: an answered call of at most three seconds is exact. */
  lemma ShortCallsAreExact(call: Call)
    requires Ordered(call) && (forall i | 0 <= i < |call| :: call[i].answers)
    requires call[11].at - call[0].at <= 3 * R64_TICKS_PER_SEC
    ensures EndingOf(call).Exact?
    ensures Reported(call) == Usec(InstantOf(call)) && call[0].at <= InstantOf(call) <= call[11].at
  {
    AnsweredCallsDoNotFail(call, 0);
    if EndingOf(call).Fallback? {
      FourCarriesTakeTime(call);
    }
  }
}
