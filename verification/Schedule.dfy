/**
 The per-port telemetry schedule: deadlines kept modulo 2^32 milliseconds, proved against
 the same schedule kept in time that never wraps.
*/
module Schedule {
  import opened LogFormat

  const PORTS := 2
  const ROWS := 5
  const HEARTBEAT := 0
  const SYSTEM_TIME := 1
  const BATTERY := 2
  const HOUSEKEEPING := 3
  const FLOOR_MS := 1000

  /** A count of milliseconds, as the 32-bit tick count shows it. */
  function Wrap(t: int): u32 {
    t % 0x1_0000_0000
  }

  datatype Entry = Entry(intervalMs: u32, lastMs: u32, enabled: bool)

  predicate Due(e: Entry, now: u32) {
    e.enabled && Wrap(now - e.lastMs) >= e.intervalMs
  }

  predicate DueAfter(e: Entry, now: u32, k: nat) {
    Due(e, Wrap(now + k))
  }

  function DueIn(e: Entry, now: u32): u32 {
    var elapsed := Wrap(now - e.lastMs);
    if elapsed >= e.intervalMs then 0 else e.intervalMs - elapsed
  }

  /** A SET_MESSAGE_INTERVAL for the housekeeping stream, received on `port`. */
  datatype Command = Command(port: nat, requestedUs: i32)

  type i32 = x: int | -0x8000_0000 <= x < 0x8000_0000

  function Commanded(e: Entry, c: Command, now: u32): Entry {
    if c.requestedUs <= 0 then e.(enabled := false)
    else if c.requestedUs / 1000 < FLOOR_MS then e
    else Entry(c.requestedUs / 1000, now, true)
  }

  function Fired(e: Entry, now: u32): Entry {
    if Due(e, now) then e.(lastMs := Wrap(e.lastMs + e.intervalMs)) else e
  }

  /** One turn of the task's loop: `now` is read, a command may arrive, `later` is read. */
  datatype Turn = Turn(now: nat, command: CommandOrNone, later: nat)
  datatype CommandOrNone = Received(command: Command) | Nothing

  predicate For(t: Turn, p: nat, i: nat) {
    i == HOUSEKEEPING && t.command.Received? && t.command.command.port == p
  }

  function BeforeFiring(e: Entry, p: nat, i: nat, t: Turn): Entry {
    if For(t, p, i) then Commanded(e, t.command.command, Wrap(t.now)) else e
  }

  function EntryAfter(e: Entry, p: nat, i: nat, t: Turn): Entry {
    Fired(BeforeFiring(e, p, i, t), Wrap(t.later))
  }

  function IntervalOf(i: nat): nat {
    if i == BATTERY then 2000 else 1000
  }

  /** How far behind the start each row is seeded. */
  function SeedOffset(i: nat): nat {
    if i == HEARTBEAT then 1000 else if i == SYSTEM_TIME then 500 else if i == BATTERY then 2000
    else if i == HOUSEKEEPING then 0 else 250
  }

  predicate StartsEnabled(i: nat, reduced: bool) {
    i != HOUSEKEEPING && (i == BATTERY ==> !reduced)
  }

  datatype Send = Send(port: nat, row: nat)

  predicate Precedes(a: Send, b: Send) {
    a.port < b.port || (a.port == b.port && a.row < b.row)
  }

  predicate Ascending(sends: seq<Send>) {
    forall a, b | 0 <= a < b < |sends| :: Precedes(sends[a], sends[b])
  }

  /** Every entry on every port, by where it sits. */
  type Table = m: map<Send, Entry> | forall s: Send :: s in m <==> s.port < PORTS && s.row < ROWS
    witness map p: nat, i: nat | p < PORTS && i < ROWS :: Send(p, i) := Entry(0, 0, false)

  /** When the loop reaches (`p`, `i`): the entries before have had their turn, the others not. */
  ghost predicate TurnTaken(was: Table, table: Table, now: u32, sends: seq<Send>, p: nat, i: nat) {
    && Ascending(sends)
    && (forall a | 0 <= a < |sends| :: Precedes(sends[a], Send(p, i)) && sends[a].row < ROWS)
    && (forall s | s in was :: table[s] == if Precedes(s, Send(p, i)) then Fired(was[s], now) else was[s])
    && (forall s | s in was && Precedes(s, Send(p, i)) :: s in sends <==> Due(was[s], now))
  }

  lemma OneMoreTurn(was: Table, table: Table, now: u32, sends: seq<Send>, p: nat, i: nat)
    requires p < PORTS && i < ROWS && TurnTaken(was, table, now, sends, p, i)
    ensures was[Send(p, i)] == table[Send(p, i)]
    ensures var s := Send(p, i);
      TurnTaken(was, table[s := Fired(was[s], now)], now, if Due(was[s], now) then sends + [s] else sends, p, i + 1)
  {
    var s := Send(p, i);
    var next := if Due(was[s], now) then sends + [s] else sends;
    assert forall r | r in was && Precedes(r, Send(p, i + 1)) :: r == s || Precedes(r, s);
  }

  lemma NextPort(was: Table, table: Table, now: u32, sends: seq<Send>, p: nat)
    requires p < PORTS && TurnTaken(was, table, now, sends, p, ROWS)
    ensures TurnTaken(was, table, now, sends, p + 1, 0)
  {
  }

  lemma AllTurnsTaken(was: Table, table: Table, now: u32, sends: seq<Send>)
    requires TurnTaken(was, table, now, sends, PORTS, 0)
    ensures forall s | s in was :: table[s] == Fired(was[s], now) && (s in sends <==> Due(was[s], now))
  {
  }

  class Scheduler {
    const schedule: array2<Entry>

    ghost predicate Valid()
      reads this, schedule
    {
      && schedule.Length0 == PORTS && schedule.Length1 == ROWS
      && forall p | 0 <= p < PORTS :: schedule[p, HEARTBEAT].enabled && schedule[p, HEARTBEAT].intervalMs == 1000
    }

    constructor (startMs: u32, reducedConfiguration: bool)
      ensures Valid() && fresh(schedule)
      ensures forall p, i | 0 <= p < PORTS && 0 <= i < ROWS ::
        schedule[p, i] == Entry(IntervalOf(i), Wrap(startMs - SeedOffset(i)), StartsEnabled(i, reducedConfiguration))
    {
      schedule := new Entry[PORTS, ROWS]((p, i) =>
        Entry(if i == BATTERY then 2000 else 1000,
              Wrap(startMs - (if i == HEARTBEAT then 1000 else if i == SYSTEM_TIME then 500
                              else if i == BATTERY then 2000 else if i == HOUSEKEEPING then 0 else 250)),
              i != HOUSEKEEPING && (i == BATTERY ==> !reducedConfiguration)));
    }

    /** How long to wait on the command queue: until the first entry on any port is due, no longer. */
    method ComputeWait(now: u32) returns (waitMs: u32)
      requires Valid()
      ensures waitMs <= 1000
      ensures exists p, i :: 0 <= p < PORTS && 0 <= i < ROWS && DueAfter(schedule[p, i], now, waitMs)
      ensures forall p, i, k: nat | 0 <= p < PORTS && 0 <= i < ROWS && k < waitMs :: !DueAfter(schedule[p, i], now, k)
    {
      waitMs := 0xFFFF_FFFF;
      ghost var first := (0, 0);
      for p := 0 to PORTS
        invariant if p == 0 then waitMs == 0xFFFF_FFFF else waitMs <= 1000 && Earliest(now, waitMs, first)
        invariant forall q, j | 0 <= q < p && 0 <= j < ROWS && schedule[q, j].enabled ::
          waitMs <= DueIn(schedule[q, j], now)
      {
        for i := 0 to ROWS
          invariant if p == i == 0 then waitMs == 0xFFFF_FFFF else waitMs <= 1000 && Earliest(now, waitMs, first)
          invariant forall q, j | 0 <= q < p && 0 <= j < ROWS && schedule[q, j].enabled ::
            waitMs <= DueIn(schedule[q, j], now)
          invariant forall j | 0 <= j < i && schedule[p, j].enabled :: waitMs <= DueIn(schedule[p, j], now)
        {
          var entry := schedule[p, i];
          if entry.enabled {
            var elapsed := Wrap(now - entry.lastMs);
            var due := if elapsed >= entry.intervalMs then 0 else entry.intervalMs - elapsed;
            if due < waitMs {
              waitMs := due;
              first := (p, i);
            }
          }
        }
      }
      DueThenAndNotBefore(schedule[first.0, first.1], now);
      forall p, i, k: nat | 0 <= p < PORTS && 0 <= i < ROWS && k < waitMs
        ensures !DueAfter(schedule[p, i], now, k)
      {
        if schedule[p, i].enabled { DueThenAndNotBefore(schedule[p, i], now); }
      }
    }

    ghost predicate Earliest(now: u32, waitMs: u32, first: (int, int))
      reads this, schedule
    {
      && schedule.Length0 == PORTS && schedule.Length1 == ROWS
      && 0 <= first.0 < PORTS && 0 <= first.1 < ROWS && schedule[first.0, first.1].enabled
      && waitMs == DueIn(schedule[first.0, first.1], now)
    }

    /** Arms, disarms or refuses to arm one port's housekeeping stream; `now` may be stale. */
    method SetInterval(c: Command, now: u32) returns (accepted: bool)
      requires Valid() && c.port < PORTS
      modifies schedule
      ensures Valid()
      ensures forall p, i | 0 <= p < PORTS && 0 <= i < ROWS :: 
        schedule[p, i] ==
          (if p == c.port && i == HOUSEKEEPING then Commanded(old(schedule[p, i]), c, now) else old(schedule[p, i]))
      ensures accepted <==> c.requestedUs <= 0 || c.requestedUs >= FLOOR_MS * 1000
    {
      accepted := true;
      if c.requestedUs <= 0 {
        schedule[c.port, HOUSEKEEPING] := schedule[c.port, HOUSEKEEPING].(enabled := false);
      } else {
        var requestedMs := c.requestedUs / 1000;
        if requestedMs < FLOOR_MS {
          accepted := false;
        } else {
          schedule[c.port, HOUSEKEEPING] := Entry(requestedMs, now, true);
        }
      }
    }

    /** Sends every entry that is due, once each, port by port, and moves its deadline on by its interval. */
    method FireDue(now: u32) returns (sends: seq<Send>)
      requires Valid()
      modifies schedule
      ensures Valid()
      ensures forall p, i | 0 <= p < PORTS && 0 <= i < ROWS :: schedule[p, i] == Fired(old(schedule[p, i]), now)
      ensures forall p: nat, i: nat | p < PORTS && i < ROWS :: Send(p, i) in sends <==> Due(old(schedule[p, i]), now)
      ensures Ascending(sends)
    {
      ghost var was := Entries();
      sends := [];
      for p := 0 to PORTS
        invariant Valid() && TurnTaken(was, Entries(), now, sends, p, 0)
      {
        sends := FirePort(was, now, sends, p);
      }
      AllTurnsTaken(was, Entries(), now, sends);
    }

    /** One port's rows, its sends put after those before. */
    method FirePort(ghost was: Table, now: u32, before: seq<Send>, p: nat) returns (sends: seq<Send>)
      requires Valid() && p < PORTS && TurnTaken(was, Entries(), now, before, p, 0)
      modifies schedule
      ensures Valid() && TurnTaken(was, Entries(), now, sends, p + 1, 0)
    {
      sends := before;
      for i := 0 to ROWS
        invariant Valid() && TurnTaken(was, Entries(), now, sends, p, i)
      {
        sends := FireRow(was, now, sends, p, i);
      }
      NextPort(was, Entries(), now, sends, p);
    }

    method FireRow(ghost was: Table, now: u32, before: seq<Send>, p: nat, i: nat) returns (sends: seq<Send>)
      requires Valid() && p < PORTS && i < ROWS && TurnTaken(was, Entries(), now, before, p, i)
      modifies schedule
      ensures Valid() && TurnTaken(was, Entries(), now, sends, p, i + 1)
    {
      OneMoreTurn(was, Entries(), now, before, p, i);
      var fires := FireEntry(p, i, now);
      sends := if fires then before + [Send(p, i)] else before;
    }

    method FireEntry(p: nat, i: nat, now: u32) returns (fires: bool)
      requires Valid() && p < PORTS && i < ROWS
      modifies schedule
      ensures Valid()
      ensures Entries() == old(Entries())[Send(p, i) := Fired(old(schedule[p, i]), now)]
      ensures fires == Due(old(schedule[p, i]), now)
    {
      var entry := schedule[p, i];
      fires := entry.enabled && Wrap(now - entry.lastMs) >= entry.intervalMs;
      if fires {
        schedule[p, i] := entry.(lastMs := Wrap(entry.lastMs + entry.intervalMs));
      }
    }

    ghost function Entries(): (m: Table)
      reads this, schedule
      requires Valid()
      ensures forall p: nat, i: nat | p < PORTS && i < ROWS :: m[Send(p, i)] == schedule[p, i]
    {
      map p: nat, i: nat | p < PORTS && i < ROWS :: Send(p, i) := schedule[p, i]
    }

    /** One turn of the task's loop, but for what else the command queue may bring. */
    method TakeTurn(t: Turn) returns (waitMs: u32, sends: seq<Send>)
      requires Valid()
      requires t.command.Received? ==> t.command.command.port < PORTS
      modifies schedule
      ensures Valid() && waitMs <= 1000
      ensures forall p, i | 0 <= p < PORTS && 0 <= i < ROWS ::
        schedule[p, i] == EntryAfter(old(schedule[p, i]), p, i, t)
      // A command touches its own port's housekeeping and nothing else.
      ensures forall p, i | 0 <= p < PORTS && 0 <= i < ROWS &&
        (i != HOUSEKEEPING || t.command.Nothing? || t.command.command.port != p ||
         0 < t.command.command.requestedUs < 1_000_000) ::
        schedule[p, i] == Fired(old(schedule[p, i]), Wrap(t.later))
      ensures t.command.Received? ==>
        var (us, e) := (t.command.command.requestedUs, schedule[t.command.command.port, HOUSEKEEPING]);
        && (us <= 0 ==> !e.enabled)
        && (us >= 1_000_000 ==>
              && e.enabled && e.intervalMs == us / 1000
              && e.lastMs == if Wrap(t.later - t.now) >= us / 1000 then Wrap(t.now + us / 1000) else Wrap(t.now))
      ensures forall p: nat, i: nat | p < PORTS && i < ROWS ::
        Send(p, i) in sends <==> Due(BeforeFiring(old(schedule[p, i]), p, i, t), Wrap(t.later))
    {
      waitMs := ComputeWait(Wrap(t.now));
      if t.command.Received? {
        var _ := SetInterval(t.command.command, Wrap(t.now));
      }
      sends := FireDue(Wrap(t.later));
      WrapsAgree(t.now, t.later, if t.command.Received? then t.command.command.requestedUs / 1000 else 0);
    }
  }

  /** For an enabled entry, DueIn is the least wait after which it is due. */
  lemma DueThenAndNotBefore(e: Entry, now: u32)
    requires e.enabled
    ensures DueAfter(e, now, DueIn(e, now))
    ensures forall k: nat | k < DueIn(e, now) :: !DueAfter(e, now, k)
  {
    forall k: nat | k < DueIn(e, now)
      ensures !DueAfter(e, now, k)
    {
      LaterBy(now, e.lastMs, k);
    }
    LaterBy(now, e.lastMs, DueIn(e, now));
  }

  lemma LaterBy(now: u32, last: u32, k: nat)
    requires Wrap(now - last) + k < 0x1_0000_0000
    ensures Wrap(Wrap(now + k) - last) == Wrap(now - last) + k
  {
  }

  // -------------------------------------------------------------------------
  // The same entry in time that never wraps
  // -------------------------------------------------------------------------

  /** An entry since its seeding, or since it was last armed: `fires` messages, one an interval. */
  datatype Ideal = Ideal(interval: nat, seed: int, fires: nat, enabled: bool) {
    function Last(): int { seed + fires * interval }

    predicate DueAt(t: int) { enabled && t - Last() >= interval }

    function FiredAt(t: int): Ideal { if DueAt(t) then this.(fires := fires + 1) else this }
  }

  function Start(i: nat, startMs: int, reduced: bool): Ideal {
    Ideal(IntervalOf(i), startMs - SeedOffset(i), 0, StartsEnabled(i, reduced))
  }

  function IdealCommanded(x: Ideal, c: Command, now: nat): Ideal {
    if c.requestedUs <= 0 then x.(enabled := false)
    else if c.requestedUs / 1000 < FLOOR_MS then x
    else Ideal(c.requestedUs / 1000, now, 0, true)
  }

  function IdealBeforeFiring(x: Ideal, p: nat, i: nat, t: Turn): Ideal {
    if For(t, p, i) then IdealCommanded(x, t.command.command, t.now) else x
  }

  /** `x` after `turns`. */
  function IdealAfter(x: Ideal, p: nat, i: nat, turns: seq<Turn>): Ideal
    decreases |turns|
  {
    if turns == [] then x
    else IdealAfter(IdealBeforeFiring(x, p, i, turns[0]).FiredAt(turns[0].later), p, i, turns[1..])
  }

  function EntryAfterAll(e: Entry, p: nat, i: nat, turns: seq<Turn>): Entry
    decreases |turns|
  {
    if turns == [] then e else EntryAfterAll(EntryAfter(e, p, i, turns[0]), p, i, turns[1..])
  }

  /** The 32-bit entry shows the ideal one. */
  predicate Shows(e: Entry, x: Ideal) {
    e.intervalMs == x.interval && e.lastMs == Wrap(x.Last()) && e.enabled == x.enabled
  }

  /** Time never runs backwards. */
  predicate InOrder(since: int, turns: seq<Turn>)
    decreases |turns|
  {
    turns == [] || (since <= turns[0].now <= turns[0].later && InOrder(turns[0].later, turns[1..]))
  }

  /** When it is compared, an enabled entry is less than 2^32 ms behind, however late the turn. */
  predicate WithinTheWidth(x: Ideal, p: nat, i: nat, turns: seq<Turn>)
    decreases |turns|
  {
    turns == [] ||
    var y := IdealBeforeFiring(x, p, i, turns[0]);
    && (y.enabled ==> turns[0].later - y.Last() < 0x1_0000_0000)
    && WithinTheWidth(y.FiredAt(turns[0].later), p, i, turns[1..])
  }

  /** Differences and sums may be taken before or after wrapping. */
  lemma WrapsAgree(a: int, b: int, k: int)
    ensures Wrap(Wrap(b) - Wrap(a)) == Wrap(b - a)
    ensures Wrap(Wrap(a) + k) == Wrap(a + k)
  {
  }

  lemma WrappedDifference(a: int, b: int)
    requires 0 <= a - b < 0x1_0000_0000
    ensures Wrap(Wrap(a) - Wrap(b)) == a - b
  {
  }

  lemma WrappedSum(a: int, b: nat)
    ensures Wrap(Wrap(a) + b) == Wrap(a + b)
  {
  }

  lemma NextLast(x: Ideal)
    ensures x.(fires := x.fires + 1).Last() == x.Last() + x.interval
  {
    assert (x.fires + 1) * x.interval == x.fires * x.interval + x.interval;
  }

  /** One comparison: due in 32 bits exactly when due in true time, and then the same entry again. */
  lemma FiringShows(e: Entry, x: Ideal, t: nat)
    requires Shows(e, x)
    requires x.enabled ==> 0 <= t - x.Last() < 0x1_0000_0000
    ensures Due(e, Wrap(t)) == x.DueAt(t)
    ensures x.enabled ==> Wrap(Wrap(t) - e.lastMs) == t - x.Last()
    ensures Shows(Fired(e, Wrap(t)), x.FiredAt(t))
  {
    if x.enabled { WrappedDifference(t, x.Last()); }
    WrappedSum(x.Last(), x.interval);
    NextLast(x);
  }

  /** An entry whose deadline is not in the future, so its delta is not negative. */
  predicate NotAhead(x: Ideal, t: int) {
    x.enabled ==> x.Last() <= t
  }

  /** One turn: the 32-bit entry and the ideal one do the same. */
  lemma TurnShows(e: Entry, x: Ideal, p: nat, i: nat, since: int, t: Turn)
    requires Shows(e, x) && NotAhead(x, since) && since <= t.now <= t.later
    requires var y := IdealBeforeFiring(x, p, i, t); y.enabled ==> t.later - y.Last() < 0x1_0000_0000
    ensures var y := IdealBeforeFiring(x, p, i, t);
      Shows(EntryAfter(e, p, i, t), y.FiredAt(t.later)) && NotAhead(y.FiredAt(t.later), t.later)
  {
    var y := IdealBeforeFiring(x, p, i, t);
    var f := BeforeFiring(e, p, i, t);
    assert Shows(f, y) && NotAhead(y, t.later);
    FiringShows(f, y, t.later);
    NextLast(y);
  }

  /**
   Nothing drifts: after any turns, however many times the tick count has wrapped, the stored
   deadline is exactly the seed plus one interval for each message sent.
  */
  lemma {:induction false} NoDrift(e: Entry, x: Ideal, p: nat, i: nat, since: int, turns: seq<Turn>)
    requires Shows(e, x) && NotAhead(x, since) && InOrder(since, turns) && WithinTheWidth(x, p, i, turns)
    ensures Shows(EntryAfterAll(e, p, i, turns), IdealAfter(x, p, i, turns))
    decreases |turns|
  {
    if turns != [] {
      var t := turns[0];
      var y := IdealBeforeFiring(x, p, i, t);
      TurnShows(e, x, p, i, since, t);
      NoDrift(EntryAfter(e, p, i, t), y.FiredAt(t.later), p, i, t.later, turns[1..]);
    }
  }

  /** No turn comes later than the entry's own interval after the one before. */
  predicate Punctual(x: Ideal, p: nat, i: nat, since: int, turns: seq<Turn>)
    decreases |turns|
  {
    turns == [] ||
    var y := IdealBeforeFiring(x, p, i, turns[0]);
    && (y.enabled ==> turns[0].later - since <= y.interval)
    && Punctual(y.FiredAt(turns[0].later), p, i, turns[0].later, turns[1..])
  }

  /** Less than an interval behind at `t`: so as many messages as whole intervals have passed. */
  predicate UpToDate(x: Ideal, t: int) {
    x.enabled ==> 0 <= t - x.Last() < x.interval
  }

  lemma UpToDateCounts(x: Ideal, t: int)
    requires UpToDate(x, t) && x.enabled
    ensures x.fires == (t - x.seed) / x.interval
  {
    DivisionIsUnique(t - x.seed, x.interval, x.fires);
  }

  lemma DivisionIsUnique(a: int, d: int, q: int)
    requires d > 0 && 0 <= a - q * d < d
    ensures q == a / d
  {
    var r := a / d;
    assert a == d * r + a % d;
    assert (q - r) * d == q * d - r * d;
    if q < r { LeastProduct(r - q, d); } else if q > r { LeastProduct(q - r, d); }
  }

  lemma LeastProduct(k: int, d: int)
    requires k > 0 && d > 0
    ensures k * d >= d
  {
  }

  /** An entry that is kept up with stays so, and never comes near the width of the tick count. */
  lemma {:induction false} PunctualStaysUpToDate(x: Ideal, p: nat, i: nat, since: int, turns: seq<Turn>)
    requires UpToDate(x, since) && InOrder(since, turns) && Punctual(x, p, i, since, turns)
    requires x.interval < 0x8000_0000
    ensures WithinTheWidth(x, p, i, turns)
    ensures UpToDate(IdealAfter(x, p, i, turns), if turns == [] then since else turns[|turns| - 1].later)
    decreases |turns|
  {
    if turns != [] {
      var t := turns[0];
      var y := IdealBeforeFiring(x, p, i, t);
      NextLast(y);
      PunctualStaysUpToDate(y.FiredAt(t.later), p, i, t.later, turns[1..]);
    }
  }

  /**
   From the task's start on either port, in either configuration: with turns no further apart
   than the entry's interval, the first less than two of them after its seed, each streamed entry has sent exactly
   as many messages as whole intervals have passed since its seed or its arming, and its
   32-bit deadline is exact.
  */
  lemma SentOncePerInterval(startMs: nat, reduced: bool, p: nat, i: nat, turns: seq<Turn>)
    requires p < PORTS && i < ROWS && turns != [] && InOrder(startMs, turns)
    requires turns[0].later - startMs < 2 * IntervalOf(i) - SeedOffset(i)
    requires Punctual(Start(i, startMs, reduced), p, i, startMs, turns)
    ensures var x := IdealAfter(Start(i, startMs, reduced), p, i, turns);
      var seeded := Entry(IntervalOf(i), Wrap(startMs - SeedOffset(i)), StartsEnabled(i, reduced));
      var e := EntryAfterAll(seeded, p, i, turns);
      var last := turns[|turns| - 1].later;
      && Shows(e, x)
      && (x.enabled ==>
            && x.interval > 0 && x.fires == (last - x.seed) / x.interval
            && Wrap(Wrap(last) - e.lastMs) == last - x.Last())
  {
    var x := Start(i, startMs, reduced);
    var e := Entry(IntervalOf(i), Wrap(startMs - SeedOffset(i)), StartsEnabled(i, reduced));
    var t := turns[0];
    FirstTurnIsEnough(startMs, reduced, p, i, t);
    PunctualStaysUpToDate(IdealBeforeFiring(x, p, i, t).FiredAt(t.later), p, i, t.later, turns[1..]);
    NoDrift(e, x, p, i, startMs, turns);
    UpToDateShows(EntryAfterAll(e, p, i, turns), IdealAfter(x, p, i, turns), turns[|turns| - 1].later);
  }

  lemma FirstTurnIsEnough(startMs: nat, reduced: bool, p: nat, i: nat, t: Turn)
    requires i < ROWS && startMs <= t.now <= t.later && t.later - startMs < 2 * IntervalOf(i) - SeedOffset(i)
    requires var y := IdealBeforeFiring(Start(i, startMs, reduced), p, i, t);
      y.enabled ==> t.later - startMs <= y.interval
    ensures var y := IdealBeforeFiring(Start(i, startMs, reduced), p, i, t);
      && y.interval < 0x8000_0000 && (y.enabled ==> t.later - y.Last() < 0x1_0000_0000)
      && UpToDate(y.FiredAt(t.later), t.later)
  {
    NextLast(IdealBeforeFiring(Start(i, startMs, reduced), p, i, t));
  }

  lemma UpToDateShows(e: Entry, x: Ideal, t: nat)
    requires Shows(e, x) && UpToDate(x, t)
    ensures x.enabled ==>
      x.interval > 0 && x.fires == (t - x.seed) / x.interval && Wrap(Wrap(t) - e.lastMs) == t - x.Last()
  {
    if x.enabled {
      UpToDateCounts(x, t);
      WrappedDifference(t, x.Last());
    }
  }

  /** One message a turn: an entry two intervals behind or more is still behind afterwards. */
  lemma OneTurnCatchesUp(x: Ideal, t: int)
    requires x.enabled && x.interval > 0 && NotAhead(x, t)
    ensures UpToDate(x.FiredAt(t), t) <==> t - x.Last() < 2 * x.interval
  {
    NextLast(x);
  }

  /** So the first turn must be the nearer one: a heartbeat seeded a whole interval back shows why. */
  lemma FirstTurnMustBeSooner(startMs: nat)
    ensures var late := Turn(startMs, Nothing, startMs + 1000);
      var x := IdealAfter(Start(HEARTBEAT, startMs, false), 0, HEARTBEAT, [late]);
      x.fires == 1 && x.interval == 1000 && (startMs + 1000 - x.seed) / 1000 == 2
  {
    var turns := [Turn(startMs, Nothing, startMs + 1000)];
    assert turns[1..] == [];
    assert IdealAfter(Start(HEARTBEAT, startMs, false), 0, HEARTBEAT, turns)
      == Start(HEARTBEAT, startMs, false).FiredAt(startMs + 1000);
  }

  /**
   When each row first sends, and then every interval: heartbeats from the start on, the
   system time half a second after them, SYS_STATUS a quarter after that, the battery every
   two seconds unless the configuration is reduced, and housekeeping not until it is armed.
  */
  lemma SendTimes(i: nat, startMs: nat, reduced: bool, k: nat, t: int)
    requires i < ROWS
    ensures Start(i, startMs, reduced).(fires := k).DueAt(t) <==>
      if i == 0 then t >= startMs + 1000 * k
      else if i == 1 then t >= startMs + 500 + 1000 * k
      else if i == 2 then !reduced && t >= startMs + 2000 * k
      else i == 4 && t >= startMs + 750 + 1000 * k
  {
  }
}
