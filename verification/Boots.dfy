/**
 The boot decision: two counters, a snapshot and a marker consumed once choose between the
 normal and the reduced configuration, over any sequence of resets.
*/
module Boots {
  import opened Cards
  import opened RecoveryBlock

  const CONSECUTIVE_THRESHOLD: u8 := 3
  const CUMULATIVE_THRESHOLD: u8 := 10
  const STABILITY_WINDOW_MS: nat := 5 * 60 * 1000
  const RETRY_INTERVAL_MS: nat := 30 * 60 * 1000

  datatype Reason = PowerOn | LowVoltage | Watchdog | Software | ExternalUnknown | BackupStateInvalid {
    function Code(): u8 {
      match this
      case PowerOn => 0 case LowVoltage => 1 case Watchdog => 2
      case Software => 3 case ExternalUnknown => 4 case BackupStateInvalid => 5
    }
  }

  /** The reason a stored code stands for. */
  function ReasonFor(code: u8): Option<Reason> {
    if code == 0 then Some(PowerOn) else if code == 1 then Some(LowVoltage)
    else if code == 2 then Some(Watchdog) else if code == 3 then Some(Software)
    else if code == 4 then Some(ExternalUnknown) else if code == 5 then Some(BackupStateInvalid) else None
  }

  /** A stored reason reads back as itself, and no other value stands for one. */
  lemma ReasonRoundTrip(reason: Reason, code: u8)
    ensures ReasonFor(code) == Some(reason) <==> code == reason.Code()
  {
  }

  const NONE: u8 := 0
  const COMMANDED: u8 := 1
  const RETRY: u8 := 2
  const PHASE_START: u8 := 0

  const ZERO := Fields(0, 0, 0, NONE)

  /** A `uint8_t` incremented. */
  function Inc(x: u8): u8 {
    (x + 1) % 256
  }

  predicate IsFault(reason: Reason) {
    reason == Watchdog || reason == Software
  }

  /** The counters after this boot's own reset is counted, the marker consumed. */
  function Counted(f: Fields, reason: Reason): Fields {
    Fields(if IsFault(reason) && f.deliberate == NONE then Inc(f.consecutive) else f.consecutive,
           Inc(f.cumulative), f.snapshot, NONE)
  }

  predicate OverThreshold(f: Fields) {
    f.consecutive >= CONSECUTIVE_THRESHOLD || f.cumulative >= CUMULATIVE_THRESHOLD
  }

  predicate StartsReduced(f: Fields, reason: Reason) {
    var counted := Counted(f, reason);
    OverThreshold(counted) && !(f.deliberate == RETRY && counted.cumulative <= f.snapshot + 1)
  }

  /** The fields once the boot has decided: a reduced one snapshots its cumulative count. */
  function Decided(f: Fields, reason: Reason): Fields {
    var counted := Counted(f, reason);
    if StartsReduced(f, reason) then counted.(snapshot := counted.cumulative) else counted
  }

  method UpdateCountersAndDecideConfiguration(r: Recovery, reason: Reason) returns (startReduced: bool)
    requires r.Ok() && IsValid(r.vbtbkr[..])
    modifies r.vbtbkr, r`stores
    ensures IsValid(r.vbtbkr[..]) && Kept(old(r.vbtbkr[..]), r.vbtbkr[..])
    ensures FieldsOf(r.vbtbkr[..]) == Decided(old(FieldsOf(r.vbtbkr[..])), reason)
    ensures startReduced == StartsReduced(old(FieldsOf(r.vbtbkr[..])), reason)
  {
    var deliberate := r.ConsumeDeliberateReset();
    var advancesConsecutive := (reason == Watchdog || reason == Software) && deliberate == NONE;

    var consecutive := r.vbtbkr[OFFSET_CONSECUTIVE_COUNT];
    var cumulative := r.vbtbkr[OFFSET_CUMULATIVE_COUNT];

    if advancesConsecutive {
      consecutive := (consecutive + 1) % 256;
      r.SetConsecutiveCount(consecutive);
    }
    cumulative := (cumulative + 1) % 256;
    r.SetCumulativeCount(cumulative);

    var snapshot: int := r.vbtbkr[OFFSET_CUMULATIVE_SNAPSHOT];
    var overThreshold := consecutive >= CONSECUTIVE_THRESHOLD || cumulative >= CUMULATIVE_THRESHOLD;
    if !overThreshold {
      startReduced := false;
    } else if deliberate == RETRY && cumulative <= snapshot + 1 {
      startReduced := false;
    } else {
      startReduced := true;
    }

    if startReduced {
      r.SetCumulativeSnapshot(cumulative);
    }
  }

  /**
   The register sequence at the top of `setup()`. What the previous boot left is read before
   this one overwrites it; a block that does not validate is reinitialised, and outranks
   whatever the hardware says caused the reset.
  */
  method BootSequence(r: Recovery, decoded: Reason)
      returns (reduced: bool, reason: Reason, previousPhase: u8, faultTask: Bytes)
    requires r.Ok()
    modifies r.vbtbkr, r`stores
    ensures r.Ok() && IsValid(r.vbtbkr[..]) && r.vbtbkr[..4] == old(r.vbtbkr[..4])
    ensures var intact := old(IsValid(r.vbtbkr[..]));
      && reason == (if intact then decoded else BackupStateInvalid)
      && FieldsOf(r.vbtbkr[..]) == Decided(if intact then old(FieldsOf(r.vbtbkr[..])) else ZERO, reason)
      && reduced == StartsReduced(if intact then old(FieldsOf(r.vbtbkr[..])) else ZERO, reason)
      && previousPhase == (if intact then old(r.vbtbkr[OFFSET_PHASE]) else PHASE_START)
      && faultTask == (if intact then old(StoredName(r.vbtbkr[..], 0)) else [])
    ensures r.vbtbkr[OFFSET_PHASE] == PHASE_START && r.vbtbkr[OFFSET_REASON] == reason.Code()
  {
    var valid := r.Valid();
    previousPhase := if valid then r.vbtbkr[OFFSET_PHASE] else PHASE_START;
    faultTask := r.GetFaultTask();
    if !valid {
      r.Reinitialise();
    }
    reason := if valid then decoded else BackupStateInvalid;
    ghost var b := r.vbtbkr[..];
    r.WriteByte(OFFSET_REASON, reason.Code());
    WithByteFields(b, OFFSET_REASON, reason.Code());

    reduced := UpdateCountersAndDecideConfiguration(r, reason);
    b := r.vbtbkr[..];
    r.WriteByte(OFFSET_PHASE, PHASE_START);
    WithByteFields(b, OFFSET_PHASE, PHASE_START);
  }

  /** The tail of the task that runs in every configuration: stability clear, and the retry. */
  class Watch {
    const reducedConfiguration: bool
    var stabilityCleared: bool
    var retryAttempted: bool

    constructor (reduced: bool)
      ensures !stabilityCleared && !retryAttempted && reducedConfiguration == reduced
    {
      reducedConfiguration, stabilityCleared, retryAttempted := reduced, false, false;
    }

    /** `reset` says that the firmware resets itself here. */
    method Check(r: Recovery, elapsedMs: nat) returns (reset: bool)
      requires r.Ok() && IsValid(r.vbtbkr[..])
      modifies this, r.vbtbkr, r`stores
      ensures r.Ok() && IsValid(r.vbtbkr[..])
      ensures stabilityCleared == (old(stabilityCleared) || elapsedMs >= STABILITY_WINDOW_MS)
      ensures reset == (reducedConfiguration && !old(retryAttempted) && elapsedMs >= RETRY_INTERVAL_MS)
      ensures retryAttempted == (old(retryAttempted) || reset)
      ensures FieldsOf(r.vbtbkr[..]) ==
        var f := old(FieldsOf(r.vbtbkr[..]));
        var cleared := if !old(stabilityCleared) && stabilityCleared then f.(consecutive := 0) else f;
        if reset then cleared.(deliberate := RETRY) else cleared
    {
      if !stabilityCleared && elapsedMs >= STABILITY_WINDOW_MS {
        r.SetConsecutiveCount(0);
        stabilityCleared := true;
      }
      reset := false;
      if reducedConfiguration && !retryAttempted && elapsedMs >= RETRY_INTERVAL_MS {
        retryAttempted := true;
        r.SetDeliberateReset(RETRY);
        reset := true;
      }
    }
  }

  /** The ground's reboot command: everything cleared first, then the marker, then the reset. */
  method CommandReboot(r: Recovery)
    requires r.Ok()
    modifies r.vbtbkr, r`stores
    ensures r.Ok() && IsValid(r.vbtbkr[..]) && r.vbtbkr[..4] == old(r.vbtbkr[..4])
    ensures FieldsOf(r.vbtbkr[..]) == ZERO.(deliberate := COMMANDED)
  {
    r.Reinitialise();
    r.SetDeliberateReset(COMMANDED);
  }

  // -------------------------------------------------------------------------
  // Sequences of boots
  // -------------------------------------------------------------------------

  /** What happens to the board, and when. `lost` says the block did not survive the reset. */
  datatype Act =
    | Reset(reason: Reason, lost: bool, at: nat)
    | Stable(at: nat)      // the stability clear
    | Retry(at: nat)       // the automatic retry's marker; a reset follows
    | Command(at: nat)     // the ground's reboot; a reset follows

  datatype Board = Board(f: Fields, reduced: bool, bootedAt: nat, cleared: bool, leaving: bool, now: nat)

  predicate Allowed(b: Board, a: Act) {
    a.at >= b.now &&
    match a
    case Reset(_, _, _) => true
    case Stable(at) => !b.leaving && !b.cleared && at >= b.bootedAt + STABILITY_WINDOW_MS
    case Retry(at) => !b.leaving && b.reduced && at >= b.bootedAt + RETRY_INTERVAL_MS
    case Command(_) => !b.leaving
  }

  function After(b: Board, a: Act): Board {
    match a
    case Reset(reason, lost, at) =>
      var f := if lost then ZERO else b.f;
      var why := if lost then BackupStateInvalid else reason;
      Board(Decided(f, why), StartsReduced(f, why), at, false, false, at)
    case Stable(at) => b.(f := b.f.(consecutive := 0), cleared := true, now := at)
    case Retry(at) => b.(f := b.f.(deliberate := RETRY), leaving := true, now := at)
    case Command(at) => b.(f := ZERO.(deliberate := COMMANDED), leaving := true, now := at)
  }

  /** The board before its first boot with a block just reinitialised. */
  const NEW_BOARD := Board(ZERO, false, 0, false, false, 0)

  function Run(h: seq<Act>): Board {
    if h == [] then NEW_BOARD else After(Run(h[..|h| - 1]), h[|h| - 1])
  }

  ghost predicate History(h: seq<Act>) {
    h == [] || (History(h[..|h| - 1]) && Allowed(Run(h[..|h| - 1]), h[|h| - 1]))
  }

  /** Resets since the counts were last cleared as a whole, the clearing boot's own included. */
  function ResetsSinceClear(h: seq<Act>): nat {
    if h == [] then 0 else ResetsWith(ResetsSinceClear(h[..|h| - 1]), h[|h| - 1])
  }

  function ResetsWith(past: nat, a: Act): nat {
    match a
    case Reset(_, lost, _) => if lost then 1 else past + 1
    case Command(_) => 0
    case _ => past
  }

  /** The last thing that happened announced a reset the firmware chose. */
  predicate Marked(h: seq<Act>) {
    h != [] && (h[|h| - 1].Retry? || h[|h| - 1].Command?)
  }

  predicate AfterRetry(h: seq<Act>) {
    h != [] && h[|h| - 1].Retry?
  }

  /** Whether a reset for this reason counts as a fault unless something announced it. */
  predicate Unchosen(reason: Reason) {
    match reason
    case Watchdog | Software => true
    case PowerOn | LowVoltage | ExternalUnknown | BackupStateInvalid => false
  }

  /** Watchdog and software resets the firmware did not choose, since it last ran stably. */
  function FaultsSinceStable(h: seq<Act>): nat {
    if h == [] then 0 else FaultsWith(FaultsSinceStable(h[..|h| - 1]), Marked(h[..|h| - 1]), h[|h| - 1])
  }

  function FaultsWith(past: nat, marked: bool, a: Act): nat {
    match a
    case Reset(reason, lost, _) => if lost then 0 else past + if Unchosen(reason) && !marked then 1 else 0
    case Stable(_) => 0
    case Command(_) => 0
    case Retry(_) => past
  }

  /** What a history with these counts, and ending so, leaves in the block. */
  predicate Matches(resets: nat, faults: nat, marked: bool, retry: bool, b: Board) {
    && b.f.cumulative == resets % 256
    && b.f.consecutive == faults % 256
    && b.f.deliberate == (if !marked then NONE else if retry then RETRY else COMMANDED)
    && b.leaving == marked
    && (retry ==> marked && b.reduced)
    && (b.reduced && (!marked || retry) ==> b.f.snapshot == b.f.cumulative)
  }

  lemma IncIsModulo(x: nat)
    ensures Inc(x % 256) == (x + 1) % 256
  {
  }

  lemma MatchesStep(resets: nat, faults: nat, marked: bool, retry: bool, b: Board, a: Act)
    requires Matches(resets, faults, marked, retry, b) && Allowed(b, a)
    ensures Matches(ResetsWith(resets, a), FaultsWith(faults, marked, a), a.Retry? || a.Command?, a.Retry?, After(b, a))
  {
    IncIsModulo(resets);
    IncIsModulo(faults);
  }

  predicate CountsMatch(h: seq<Act>, b: Board) {
    Matches(ResetsSinceClear(h), FaultsSinceStable(h), Marked(h), AfterRetry(h), b)
  }

  /** The stored counts are the history's, modulo the width they are stored in. */
  lemma {:induction false} CountsAreHistory(h: seq<Act>)
    requires History(h)
    ensures CountsMatch(h, Run(h))
    decreases |h|
  {
    if h != [] {
      var before := h[..|h| - 1];
      CountsAreHistory(before);
      MatchesStep(ResetsSinceClear(before), FaultsSinceStable(before), Marked(before), AfterRetry(before),
                  Run(before), h[|h| - 1]);
    }
  }

  /** With fewer than 256 resets between clears nothing wraps. */
  lemma CountsAreExact(h: seq<Act>)
    requires History(h) && ResetsSinceClear(h) < 256 && FaultsSinceStable(h) < 256
    ensures Run(h).f.cumulative == ResetsSinceClear(h) && Run(h).f.consecutive == FaultsSinceStable(h)
  {
    CountsAreHistory(h);
    SmallCountsMatch(ResetsSinceClear(h), FaultsSinceStable(h), Marked(h), AfterRetry(h), Run(h));
  }

  lemma SmallCountsMatch(resets: nat, faults: nat, marked: bool, retry: bool, b: Board)
    requires Matches(resets, faults, marked, retry, b) && resets < 256 && faults < 256
    ensures b.f.cumulative == resets && b.f.consecutive == faults
  {
  }

  /** A boot is normal exactly when both counts are under threshold or it follows a retry. */
  lemma NormalIffUnderThresholdOrRetry(h: seq<Act>, reason: Reason, lost: bool, at: nat)
    requires History(h) && at >= Run(h).now
    requires ResetsSinceClear(h) < 255 && FaultsSinceStable(h) < 255
    ensures var next := h + [Reset(reason, lost, at)];
      !Run(next).reduced <==>
        (FaultsSinceStable(next) < 3 && ResetsSinceClear(next) < 10) ||
        AfterRetry(h)
  {
    var next := h + [Reset(reason, lost, at)];
    assert next[..|next| - 1] == h && next[|next| - 1] == Reset(reason, lost, at);
    CountsAreHistory(h);
    DecisionIsByCounts(ResetsSinceClear(h), FaultsSinceStable(h), Marked(h), AfterRetry(h),
                       Run(h), Reset(reason, lost, at));
  }

  lemma DecisionIsByCounts(resets: nat, faults: nat, marked: bool, retry: bool, b: Board, a: Act)
    requires Matches(resets, faults, marked, retry, b) && a.Reset? && resets < 255 && faults < 255
    ensures !After(b, a).reduced <==>
      (FaultsWith(faults, marked, a) < CONSECUTIVE_THRESHOLD && ResetsWith(resets, a) < CUMULATIVE_THRESHOLD) || retry
  {
  }

  /** The boot after an automatic retry starts normal, however often the counters have wrapped. */
  lemma RetryStartsNormal(h: seq<Act>, reason: Reason, lost: bool, at: nat)
    requires History(h) && h != [] && h[|h| - 1].Retry? && at >= Run(h).now
    ensures !Run(h + [Reset(reason, lost, at)]).reduced
  {
    var next := h + [Reset(reason, lost, at)];
    assert next[..|next| - 1] == h;
    CountsAreHistory(h);
    assert Allowed(Run(h[..|h| - 1]), h[|h| - 1]);
  }

  /** The boot after a commanded reboot starts normal, whatever caused its reset. */
  lemma CommandStartsNormal(h: seq<Act>, reason: Reason, lost: bool, at: nat)
    requires History(h) && h != [] && h[|h| - 1].Command? && at >= Run(h).now
    ensures var b := Run(h + [Reset(reason, lost, at)]); !b.reduced && b.f == Fields(0, 1, 0, NONE)
  {
    var next := h + [Reset(reason, lost, at)];
    assert next[..|next| - 1] == h;
  }

  // -------------------------------------------------------------------------
  // It does not oscillate
  // -------------------------------------------------------------------------

  function RunFrom(b: Board, acts: seq<Act>): Board
    decreases |acts|
  {
    if acts == [] then b else RunFrom(After(b, acts[0]), acts[1..])
  }

  predicate AllowedFrom(b: Board, acts: seq<Act>)
    decreases |acts|
  {
    acts == [] || (Allowed(b, acts[0]) && AllowedFrom(After(b, acts[0]), acts[1..]))
  }

  predicate Uncommanded(acts: seq<Act>) {
    forall i | 0 <= i < |acts| :: !acts[i].Command? && (acts[i].Reset? ==> !acts[i].lost)
  }

  function Resets(acts: seq<Act>): nat {
    if acts == [] then 0 else (if acts[0].Reset? then 1 else 0) + Resets(acts[1..])
  }

  /** Some boot among `acts` starts normal. */
  predicate TurnsNormal(b: Board, acts: seq<Act>)
    decreases |acts|
  {
    acts != [] && ((acts[0].Reset? && !After(b, acts[0]).reduced) || TurnsNormal(After(b, acts[0]), acts[1..]))
  }

  predicate Retries(acts: seq<Act>) {
    exists i :: 0 <= i < |acts| && acts[i].Retry?
  }

  /** A board in the reduced configuration since `since`: only stability or a retry can let it out. */
  predicate HeldReduced(b: Board, since: nat) {
    && b.reduced && b.bootedAt >= since && b.now >= b.bootedAt
    && (b.leaving ==> b.now >= since + RETRY_INTERVAL_MS)
    && (!b.leaving ==> b.f.deliberate == NONE)
    && (b.cleared ==> b.now >= since + STABILITY_WINDOW_MS)
    && (!b.cleared ==> OverThreshold(b.f))
  }

  lemma {:induction false} TimeAdvances(b: Board, acts: seq<Act>)
    requires AllowedFrom(b, acts)
    ensures RunFrom(b, acts).now >= b.now
    decreases |acts|
  {
    if acts != [] { TimeAdvances(After(b, acts[0]), acts[1..]); }
  }

  /**
   Without a command and with the block intact, a board that has entered the reduced
   configuration starts normal again only after running there stably for five minutes or
   waiting out the retry's thirty; so its entries are at least that far apart.
  */
  lemma {:induction false} LeavingReducedTakesTime(b: Board, acts: seq<Act>, since: nat)
    requires HeldReduced(b, since) && AllowedFrom(b, acts) && Uncommanded(acts)
    requires b.f.cumulative + Resets(acts) < 256 && b.f.consecutive + Resets(acts) < 256
    ensures TurnsNormal(b, acts) ==> RunFrom(b, acts).now >= since + STABILITY_WINDOW_MS
    decreases |acts|
  {
    if acts != [] {
      var next := After(b, acts[0]);
      TimeAdvances(next, acts[1..]);
      if next.now < since + STABILITY_WINDOW_MS {
        LeavingReducedTakesTime(next, acts[1..], since);
      }
    }
  }

  /** Two entries with an automatic retry between them are at least its interval apart. */
  lemma {:induction false} RetryTakesItsInterval(b: Board, acts: seq<Act>, since: nat)
    requires b.bootedAt >= since && AllowedFrom(b, acts) && b.now >= b.bootedAt
    ensures Retries(acts) ==> RunFrom(b, acts).now >= since + RETRY_INTERVAL_MS
    decreases |acts|
  {
    if acts != [] {
      var next := After(b, acts[0]);
      TimeAdvances(next, acts[1..]);
      RetryTakesItsInterval(next, acts[1..], since);
      if Retries(acts) && !acts[0].Retry? {
        var i :| 0 <= i < |acts| && acts[i].Retry?;
        assert acts[1..][i - 1].Retry?;
      }
    }
  }

  /**
   Two entries into the reduced configuration are at least the retry interval apart if an
   automatic retry came between, whatever else did; and at least the stability window apart
   if a normal boot came between, with no command and an intact block.
  */
  lemma EntriesAreApart(h: seq<Act>, entry: Act, acts: seq<Act>)
    requires History(h) && entry.Reset? && Allowed(Run(h), entry)
    requires AllowedFrom(After(Run(h), entry), acts)
    ensures var b := After(Run(h), entry);
      && (Retries(acts) ==> RunFrom(b, acts).now >= entry.at + 1_800_000)
      && (b.reduced && Uncommanded(acts) && TurnsNormal(b, acts) &&
          b.f.cumulative + Resets(acts) < 256 && b.f.consecutive + Resets(acts) < 256 ==>
            RunFrom(b, acts).now >= entry.at + 300_000)
  {
    var b := After(Run(h), entry);
    RetryTakesItsInterval(b, acts, entry.at);
    if b.reduced && Uncommanded(acts) && b.f.cumulative + Resets(acts) < 256 && b.f.consecutive + Resets(acts) < 256 {
      LeavingReducedTakesTime(b, acts, entry.at);
    }
  }
}
