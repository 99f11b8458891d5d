/**
 What each call of `SdData` does to the card, as the list of card operations it performs
 in order, and runs of calls in which power may fail between any two of them.
*/
module RingSpec {
  import opened Cards

  const FLUSH_INTERVAL_BYTES: nat := 4096

  /** The open handle: the slot it appends to, its unsynced tail, and the sync counter. */
  datatype Ram = Ram(slot: nat, pending: Bytes, since: nat)

  datatype Outcome = Outcome(ops: seq<Op>, ram: Option<Ram>)

  /** What `index.bin` names, or 0 when it is missing or out of range. */
  function ReadIndex(g: Geometry, c: Card): nat {
    if c.index.Some? && 0 <= c.index.value < g.n then c.index.value else 0
  }

  /** The slot `k` places on from `from`. */
  function Place(g: Geometry, from: nat, k: nat): nat
  {
    (from + k) % g.n
  }

  /** The first slot in ring order from `from`, `step` places on, that is not full. */
  function FirstNotFull(g: Geometry, c: Card, from: nat, step: nat): Option<nat>
    decreases g.n - step
  {
    if step >= g.n then None
    else if !Full(g, c, Place(g, from, step)) then Some(Place(g, from, step))
    else FirstNotFull(g, c, from, step + 1)
  }

  function CloseOps(ram: Option<Ram>): seq<Op> {
    if ram.Some? then [Sync(ram.value.slot, ram.value.pending)] else []
  }

  /** The open callback: every chunk is written through `writeRaw`, which syncs each. */
  function PreambleOps(slot: nat, chunks: seq<Bytes>): seq<Op> {
    if chunks == [] then [] else [Sync(slot, chunks[0])] + PreambleOps(slot, chunks[1..])
  }

  /** Rotation with the old file closed: remove, persist the index, open, preamble. */
  function NextSlotOps(g: Geometry, c: Card, from: nat, chunks: seq<Bytes>): seq<Op>
  {
    var next := Place(g, from, 1);
    (if Present(c, next) then [Remove(next)] else []) + [SetIndex(next), Open(next)] + PreambleOps(next, chunks)
  }

  /** `begin()` with no file held. */
  function ResumeOps(g: Geometry, c: Card, chunks: seq<Bytes>): seq<Op>
  {
    var indexed := ReadIndex(g, c);
    match FirstNotFull(g, c, indexed, 0)
    case None => NextSlotOps(g, c, indexed, chunks)
    case Some(slot) =>
      (if slot != indexed then [SetIndex(slot)] else []) + [Open(slot)] + PreambleOps(slot, chunks)
  }

  function ResumeSlot(g: Geometry, c: Card): nat
  {
    var indexed := ReadIndex(g, c);
    match FirstNotFull(g, c, indexed, 0)
    case None => Place(g, indexed, 1)
    case Some(slot) => slot
  }

  function Begin(g: Geometry, c: Card, ram: Option<Ram>, chunks: seq<Bytes>): Outcome
  {
    var closed := Apply(c, CloseOps(ram));
    Outcome(CloseOps(ram) + ResumeOps(g, closed, chunks), Some(Ram(ResumeSlot(g, closed), [], 0)))
  }

  /** The handle after appending `rec`, and the sync that may have followed. */
  function Append(ram: Ram, rec: Bytes): Outcome {
    var tail := ram.pending + rec;
    if ram.since + |rec| >= FLUSH_INTERVAL_BYTES
    then Outcome([Sync(ram.slot, tail)], Some(Ram(ram.slot, [], 0)))
    else Outcome([], Some(Ram(ram.slot, tail, ram.since + |rec|)))
  }

  function Write(g: Geometry, c: Card, ram: Ram, rec: Bytes, chunks: seq<Bytes>): Outcome
  {
    if rec == [] then Outcome([], Some(ram))
    else
      var appended := Append(ram, rec);
      if |Content(c, ram.slot)| + |ram.pending| + |rec| < g.size then appended
      else
        var done := appended.ops + CloseOps(appended.ram);
        Outcome(done + NextSlotOps(g, Apply(c, done), ram.slot, chunks), Some(Ram(Place(g, ram.slot, 1), [], 0)))
  }

  // -------------------------------------------------------------------------
  // Runs
  // -------------------------------------------------------------------------

  datatype Call =
    | CallBegin(chunks: seq<Bytes>)
    | CallWrite(rec: Bytes, chunks: seq<Bytes>)
    | CallEnd

  /** A call runs to its end, or power is lost after some number of its operations. */
  datatype Event =
    | Done(call: Call)
    | Cut(call: Call, after: nat)
    | IndexDamaged(index: Option<int>)

  datatype Sys = Sys(card: Card, ram: Option<Ram>)

  function Plan(g: Geometry, s: Sys, call: Call): Outcome
  {
    match call
    case CallBegin(chunks) => Begin(g, s.card, s.ram, chunks)
    case CallWrite(rec, chunks) =>
      if s.ram.None? then Outcome([], None) else Write(g, s.card, s.ram.value, rec, chunks)
    case CallEnd => Outcome(CloseOps(s.ram), None)
  }

  function EventOps(g: Geometry, s: Sys, e: Event): seq<Op>
  {
    match e
    case Done(call) => Plan(g, s, call).ops
    case Cut(call, after) =>
      var ops := Plan(g, s, call).ops;
      if after < |ops| then ops[..after] else ops
    case IndexDamaged(i) => [Damage(i)]
  }

  function Next(g: Geometry, s: Sys, e: Event): Sys
  {
    var ram := match e
      case Done(call) => Plan(g, s, call).ram
      case Cut(_, _) => None
      case IndexDamaged(_) => s.ram;
    Sys(Apply(s.card, EventOps(g, s, e)), ram)
  }

  function RunOps(g: Geometry, s: Sys, events: seq<Event>): seq<Op>
    decreases |events|
  {
    if events == [] then [] else EventOps(g, s, events[0]) + RunOps(g, Next(g, s, events[0]), events[1..])
  }

  function RunEnd(g: Geometry, s: Sys, events: seq<Event>): Sys
    decreases |events|
  {
    if events == [] then s else RunEnd(g, Next(g, s, events[0]), events[1..])
  }

  /** The index may be lost, put out of range, or made to name a full slot; never more. */
  predicate DamageAdmitted(g: Geometry, c: Card, index: Option<int>) {
    index.Some? && 0 <= index.value < g.n ==> Full(g, c, index.value)
  }

  ghost predicate RunAdmitted(g: Geometry, s: Sys, events: seq<Event>)
    decreases |events|
  {
    events == [] ||
    ((events[0].IndexDamaged? ==> DamageAdmitted(g, s.card, events[0].index)) &&
     RunAdmitted(g, Next(g, s, events[0]), events[1..]))
  }

  predicate NoDamage(events: seq<Event>) {
    forall i | 0 <= i < |events| :: !events[i].IndexDamaged?
  }

  /** The operations of a run are exactly what its card went through. */
  lemma {:induction false} RunIsApply(g: Geometry, s: Sys, events: seq<Event>)
    ensures RunEnd(g, s, events).card == Apply(s.card, RunOps(g, s, events))
    decreases |events|
  {
    if events != [] {
      var next := Next(g, s, events[0]);
      RunIsApply(g, next, events[1..]);
      ApplyConcat(s.card, EventOps(g, s, events[0]), RunOps(g, next, events[1..]));
    }
  }
}
