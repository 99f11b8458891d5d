/**
 How often the card is synced: once for every 4096 bytes logged, apart from what opening and
 closing a file costs.
*/
module RingSyncs {
  import opened Cards
  import opened RingSpec

  function Syncs(ops: seq<Op>): nat {
    if ops == [] then 0 else (if ops[0].Sync? then 1 else 0) + Syncs(ops[1..])
  }

  function Opens(ops: seq<Op>): nat {
    if ops == [] then 0 else (if ops[0].Open? then 1 else 0) + Opens(ops[1..])
  }

  lemma {:induction false} CountsConcat(a: seq<Op>, b: seq<Op>)
    ensures Syncs(a + b) == Syncs(a) + Syncs(b) && Opens(a + b) == Opens(a) + Opens(b)
    decreases |a|
  {
    if a == [] {
      assert a + b == b;
    } else {
      assert (a + b)[0] == a[0] && (a + b)[1..] == a[1..] + b;
      CountsConcat(a[1..], b);
    }
  }

  lemma CountsPrefix(ops: seq<Op>, k: nat)
    requires k <= |ops|
    ensures Syncs(ops[..k]) <= Syncs(ops) && Opens(ops[..k]) <= Opens(ops)
  {
    assert ops == ops[..k] + ops[k..];
    CountsConcat(ops[..k], ops[k..]);
  }

  function Since(s: Sys): nat {
    if s.ram.Some? then s.ram.value.since else 0
  }

  // -------------------------------------------------------------------------
  // Records
  // -------------------------------------------------------------------------

  /** A record causes a sync only once 4096 bytes have gathered, and then uses them up. */
  lemma AppendBatches(ram: Ram, rec: Bytes)
    ensures var a := Append(ram, rec);
      && 4096 * Syncs(a.ops) + a.ram.value.since <= ram.since + |rec|
      && Opens(a.ops) == 0 && a.ram.value.slot == ram.slot
      && (Syncs(a.ops) == 0 <==> ram.since + |rec| < 4096)
  {
    var a := Append(ram, rec);
    if a.ops != [] {
      assert a.ops[1..] == [];
    }
  }

  /** The bytes that records bring in. */
  function Offered(events: seq<Event>): nat {
    if events == [] then 0 else OfferedBy(events[0]) + Offered(events[1..])
  }

  function OfferedBy(e: Event): nat {
    if !e.IndexDamaged? && e.call.CallWrite? then |e.call.rec| else 0
  }

  predicate OnlyWrites(events: seq<Event>) {
    forall i | 0 <= i < |events| :: events[i].Done? && events[i].call.CallWrite?
  }

  /** Any number of records written to one file, with no rotation: at most one sync for every 4096 bytes. */
  lemma {:induction false} WritesAreBatched(g: Geometry, s: Sys, events: seq<Event>)
    requires s.ram.Some? && OnlyWrites(events) && Opens(RunOps(g, s, events)) == 0
    ensures var t := RunEnd(g, s, events);
      && t.ram.Some? && t.ram.value.slot == s.ram.value.slot
      && 4096 * Syncs(RunOps(g, s, events)) + t.ram.value.since <= s.ram.value.since + Offered(events)
    decreases |events|
  {
    if events != [] {
      var next := Next(g, s, events[0]);
      CountsConcat(EventOps(g, s, events[0]), RunOps(g, next, events[1..]));
      WriteIsBatched(g, s, events[0].call.rec, events[0].call.chunks);
      WritesAreBatched(g, next, events[1..]);
    }
  }

  lemma WriteIsBatched(g: Geometry, s: Sys, rec: Bytes, chunks: seq<Bytes>)
    requires s.ram.Some? && Opens(Plan(g, s, CallWrite(rec, chunks)).ops) == 0
    ensures var plan := Plan(g, s, CallWrite(rec, chunks));
      && plan.ram.Some? && plan.ram.value.slot == s.ram.value.slot
      && 4096 * Syncs(plan.ops) + plan.ram.value.since <= s.ram.value.since + |rec|
  {
    var ram := s.ram.value;
    if rec != [] {
      AppendBatches(ram, rec);
      if |Content(s.card, ram.slot)| + |ram.pending| + |rec| >= g.size {
        RotationOpens(g, s, rec, chunks);
      }
    }
  }

  lemma RotationOpens(g: Geometry, s: Sys, rec: Bytes, chunks: seq<Bytes>)
    requires s.ram.Some? && rec != []
    requires |Content(s.card, s.ram.value.slot)| + |s.ram.value.pending| + |rec| >= g.size
    ensures Opens(Plan(g, s, CallWrite(rec, chunks)).ops) > 0
  {
    var a := Append(s.ram.value, rec);
    var done := a.ops + CloseOps(a.ram);
    var next := NextSlotOps(g, Apply(s.card, done), s.ram.value.slot, chunks);
    CountsConcat(done, next);
    NextSlotCounts(g, Apply(s.card, done), s.ram.value.slot, chunks, |next|);
    assert next[..|next|] == next;
  }

  // -------------------------------------------------------------------------
  // Openings and closings
  // -------------------------------------------------------------------------

  lemma {:induction false} PreambleCounts(slot: nat, chunks: seq<Bytes>, k: nat)
    requires k <= |PreambleOps(slot, chunks)|
    ensures Syncs(PreambleOps(slot, chunks)[..k]) <= |chunks| && Opens(PreambleOps(slot, chunks)[..k]) == 0
    decreases |chunks|
  {
    var ops := PreambleOps(slot, chunks);
    if chunks != [] && k > 0 {
      assert ops[1..] == PreambleOps(slot, chunks[1..]);
      assert ops[..k][0] == ops[0] && ops[..k][1..] == ops[1..][..k - 1];
      PreambleCounts(slot, chunks[1..], k - 1);
    }
  }

  predicate Quiet(ops: seq<Op>) {
    forall i | 0 <= i < |ops| :: !ops[i].Sync? && !ops[i].Open?
  }

  lemma {:induction false} QuietCounts(ops: seq<Op>)
    requires Quiet(ops)
    ensures Syncs(ops) == 0 && Opens(ops) == 0
  {
    if ops != [] { QuietCounts(ops[1..]); }
  }

  /** However far an opening gets, it has synced only after it opened, and once a chunk. */
  lemma OpeningCounts(moves: seq<Op>, slot: nat, chunks: seq<Bytes>, k: nat)
    requires Quiet(moves) && |chunks| <= 4
    requires k <= |moves + ([Open(slot)] + PreambleOps(slot, chunks))|
    ensures var cut := (moves + ([Open(slot)] + PreambleOps(slot, chunks)))[..k];
      Syncs(cut) <= 4 * Opens(cut) && Opens(cut) <= 1 && (k > |moves| ==> Opens(cut) == 1)
  {
    var opening := [Open(slot)] + PreambleOps(slot, chunks);
    if k <= |moves| {
      assert (moves + opening)[..k] == moves[..k];
      QuietCounts(moves[..k]);
    } else {
      var rest := PreambleOps(slot, chunks)[..k - |moves| - 1];
      assert (moves + opening)[..k] == moves + ([Open(slot)] + rest);
      CountsConcat(moves, [Open(slot)] + rest);
      QuietCounts(moves);
      assert ([Open(slot)] + rest)[1..] == rest;
      PreambleCounts(slot, chunks, k - |moves| - 1);
    }
  }

  lemma NextSlotCounts(g: Geometry, c: Card, from: nat, chunks: seq<Bytes>, k: nat)
    requires k <= |NextSlotOps(g, c, from, chunks)|
    ensures |chunks| <= 4 ==>
      Syncs(NextSlotOps(g, c, from, chunks)[..k]) <= 4 * Opens(NextSlotOps(g, c, from, chunks)[..k])
    ensures k == |NextSlotOps(g, c, from, chunks)| ==> Opens(NextSlotOps(g, c, from, chunks)[..k]) == 1
  {
    var next := Place(g, from, 1);
    var moves := (if Present(c, next) then [Remove(next)] else []) + [SetIndex(next)];
    var opening := [Open(next)] + PreambleOps(next, chunks);
    assert NextSlotOps(g, c, from, chunks) == moves + opening;
    if |chunks| <= 4 {
      OpeningCounts(moves, next, chunks, k);
    }
    if k == |moves + opening| {
      assert (moves + opening)[..k] == moves + opening;
      CountsConcat(moves, opening);
      QuietCounts(moves);
      assert opening[1..] == PreambleOps(next, chunks);
      PreambleCounts(next, chunks, |PreambleOps(next, chunks)|);
      assert PreambleOps(next, chunks)[..|PreambleOps(next, chunks)|] == PreambleOps(next, chunks);
    }
  }

  lemma ResumeCounts(g: Geometry, c: Card, chunks: seq<Bytes>, k: nat)
    requires k <= |ResumeOps(g, c, chunks)| && |chunks| <= 4
    ensures Syncs(ResumeOps(g, c, chunks)[..k]) <= 4 * Opens(ResumeOps(g, c, chunks)[..k])
    ensures k == |ResumeOps(g, c, chunks)| ==> Opens(ResumeOps(g, c, chunks)[..k]) == 1
  {
    match FirstNotFull(g, c, ReadIndex(g, c), 0)
    case None => NextSlotCounts(g, c, ReadIndex(g, c), chunks, k);
    case Some(slot) =>
      var moves: seq<Op> := if slot != ReadIndex(g, c) then [SetIndex(slot)] else [];
      assert ResumeOps(g, c, chunks) == moves + ([Open(slot)] + PreambleOps(slot, chunks));
      OpeningCounts(moves, slot, chunks, k);
  }

  lemma CloseCounts(ram: Option<Ram>)
    ensures Syncs(CloseOps(ram)) <= 1 && Opens(CloseOps(ram)) == 0
  {
    if ram.Some? {
      assert CloseOps(ram)[1..] == [];
    }
  }

  // -------------------------------------------------------------------------
  // Whole runs
  // -------------------------------------------------------------------------

  /** Preambles of at most four chunks, as the firmware's has. */
  predicate FourChunks(e: Event) {
    e.IndexDamaged? ||
    match e.call
    case CallBegin(chunks) => |chunks| <= 4
    case CallWrite(_, chunks) => |chunks| <= 4
    case CallEnd => true
  }

  /** Events that may close a file without opening one. */
  function Breaks(events: seq<Event>): nat {
    if events == [] then 0 else (if IsBreak(events[0]) then 1 else 0) + Breaks(events[1..])
  }

  predicate IsBreak(e: Event) {
    e.Cut? || (e.Done? && e.call.CallEnd?)
  }

  /** Some operations of a call, `batched` for its record and the rest for its files. */
  lemma CutCounts(batched: seq<Op>, close: seq<Op>, opening: seq<Op>, k: nat)
    requires Opens(batched) == 0 && Syncs(close) <= 1 && Opens(close) == 0 && k <= |batched + close + opening|
    requires forall j: nat | j <= |opening| :: Syncs(opening[..j]) <= 4 * Opens(opening[..j])
    ensures var cut := (batched + close + opening)[..k];
      && Syncs(cut) <= Syncs(batched) + 1 + 4 * Opens(cut)
      && (k == |batched + close + opening| ==> Opens(cut) == Opens(opening))
  {
    var before := batched + close;
    CountsConcat(batched, close);
    if k <= |before| {
      assert (before + opening)[..k] == before[..k];
      CountsPrefix(before, k);
      assert k == |before + opening| ==> opening == [];
    } else {
      assert (before + opening)[..k] == before + opening[..k - |before|];
      CountsConcat(before, opening[..k - |before|]);
      assert k == |before + opening| ==> opening[..k - |before|] == opening;
    }
  }

  /** The operations of a call, in those three parts. */
  lemma PlanParts(g: Geometry, s: Sys, call: Call) returns (batched: seq<Op>, close: seq<Op>, opening: seq<Op>)
    requires FourChunks(Done(call))
    ensures Plan(g, s, call).ops == batched + close + opening
    ensures Opens(batched) == 0 && Syncs(close) <= 1 && Opens(close) == 0
    ensures forall j: nat | j <= |opening| :: Syncs(opening[..j]) <= 4 * Opens(opening[..j])
    ensures opening == [] || Opens(opening) == 1
    ensures close != [] && opening == [] ==> call.CallEnd?
    ensures 4096 * Syncs(batched) <= Since(s) + OfferedBy(Done(call))
    ensures 4096 * Syncs(batched) + Since(Sys(s.card, Plan(g, s, call).ram)) <= Since(s) + OfferedBy(Done(call))
  {
    batched, close, opening := [], [], [];
    match call {
      case CallEnd =>
        close := CloseOps(s.ram);
        CloseCounts(s.ram);
      case CallBegin(chunks) =>
        close := CloseOps(s.ram);
        CloseCounts(s.ram);
        opening := ResumeOps(g, Apply(s.card, close), chunks);
        ResumePrefixes(g, Apply(s.card, close), chunks);
      case CallWrite(rec, chunks) =>
        if s.ram.Some? && rec != [] {
          var ram := s.ram.value;
          var a := Append(ram, rec);
          batched := a.ops;
          AppendBatches(ram, rec);
          if |Content(s.card, ram.slot)| + |ram.pending| + |rec| >= g.size {
            close := CloseOps(a.ram);
            CloseCounts(a.ram);
            var c := Apply(s.card, batched + close);
            opening := NextSlotOps(g, c, ram.slot, chunks);
            NextSlotPrefixes(g, c, ram.slot, chunks);
          }
        }
    }
  }

  lemma ResumePrefixes(g: Geometry, c: Card, chunks: seq<Bytes>)
    requires |chunks| <= 4
    ensures var ops := ResumeOps(g, c, chunks);
      Opens(ops) == 1 && forall j: nat | j <= |ops| :: Syncs(ops[..j]) <= 4 * Opens(ops[..j])
  {
    var ops := ResumeOps(g, c, chunks);
    forall j: nat | j <= |ops| ensures Syncs(ops[..j]) <= 4 * Opens(ops[..j]) {
      ResumeCounts(g, c, chunks, j);
    }
    ResumeCounts(g, c, chunks, |ops|);
    assert ops[..|ops|] == ops;
  }

  lemma NextSlotPrefixes(g: Geometry, c: Card, from: nat, chunks: seq<Bytes>)
    requires |chunks| <= 4
    ensures var ops := NextSlotOps(g, c, from, chunks);
      Opens(ops) == 1 && forall j: nat | j <= |ops| :: Syncs(ops[..j]) <= 4 * Opens(ops[..j])
  {
    var ops := NextSlotOps(g, c, from, chunks);
    forall j: nat | j <= |ops| ensures Syncs(ops[..j]) <= 4 * Opens(ops[..j]) {
      NextSlotCounts(g, c, from, chunks, j);
    }
    NextSlotCounts(g, c, from, chunks, |ops|);
    assert ops[..|ops|] == ops;
  }

  lemma EventSyncs(g: Geometry, s: Sys, e: Event)
    requires FourChunks(e)
    ensures var ops := EventOps(g, s, e);
      4096 * Syncs(ops) + Since(Next(g, s, e)) <=
      Since(s) + OfferedBy(e) + 4096 * (5 * Opens(ops) + if IsBreak(e) then 1 else 0)
  {
    match e {
      case IndexDamaged(i) => assert EventOps(g, s, e)[1..] == [];
      case Done(call) =>
        var batched, close, opening := PlanParts(g, s, call);
        var ops := batched + close + opening;
        CutCounts(batched, close, opening, |ops|);
        assert ops[..|ops|] == ops;
        CountsConcat(batched, close);
        CountsConcat(batched + close, opening);
        assert opening[..|opening|] == opening;
      case Cut(call, after) =>
        var batched, close, opening := PlanParts(g, s, call);
        var ops := batched + close + opening;
        CutCounts(batched, close, opening, if after < |ops| then after else |ops|);
        assert ops[..|ops|] == ops;
    }
  }

  /**
   Over any run, cuts and rotations included: apart from five syncs an opening (one to close
   the file before, four for the preamble) and one for each end or cut, the card is synced
   at most once for every 4096 bytes offered to the log.
  */
  lemma {:induction false} SyncsAreBounded(g: Geometry, s: Sys, events: seq<Event>)
    requires forall i | 0 <= i < |events| :: FourChunks(events[i])
    ensures 4096 * Syncs(RunOps(g, s, events)) + Since(RunEnd(g, s, events)) <=
      Since(s) + Offered(events) + 4096 * (5 * Opens(RunOps(g, s, events)) + Breaks(events))
    decreases |events|
  {
    if events != [] {
      var next := Next(g, s, events[0]);
      EventSyncs(g, s, events[0]);
      SyncsAreBounded(g, next, events[1..]);
      CountsConcat(EventOps(g, s, events[0]), RunOps(g, next, events[1..]));
    }
  }
}
