/**
 A file's reported time is that of the opening which created the file's head.
*/
module LogHead {
  import opened Cards
  import opened RingSpec
  import opened LogFormat

  /** Where the handle is in writing a preamble: `stage` chunks are in, 4 being all of them. */
  datatype Pen = Lifted | Pen(slot: nat, stage: nat)

  function Moves(pen: Pen, op: Op): Pen {
    match op
    case Open(s) => Pen(s, 0)
    case Sync(s, _) => if pen.Pen? && pen.stage < 4 then Pen(s, pen.stage + 1) else pen
    case Remove(_) => Lifted
    case SetIndex(_) => Lifted
    case Damage(_) => pen
  }

  ghost predicate IsTimeRecord(b: Bytes) {
    exists t: u64, u: u32, s: Source :: b == TimeRecord(t, u, s)
  }

  ghost predicate Writes(pre: Bytes, pen: Pen, op: Op) {
    match op
    case Sync(s, tail) =>
      pen.Pen? && pen.slot == s &&
      (pen.stage == 0 ==> tail == pre) && (pen.stage == 1 ==> IsTimeRecord(tail))
    case Damage(_) => pen.Pen? ==> pen.stage == 4
    case _ => true
  }

  ghost predicate WritesSeq(pre: Bytes, pen: Pen, ops: seq<Op>)
    decreases |ops|
  {
    ops == [] || (Writes(pre, pen, ops[0]) && WritesSeq(pre, Moves(pen, ops[0]), ops[1..]))
  }

  function MovesBy(pen: Pen, ops: seq<Op>): Pen
    decreases |ops|
  {
    if ops == [] then pen else MovesBy(Moves(pen, ops[0]), ops[1..])
  }

  lemma {:induction false} WritesConcat(pre: Bytes, pen: Pen, a: seq<Op>, b: seq<Op>)
    requires WritesSeq(pre, pen, a) && WritesSeq(pre, MovesBy(pen, a), b)
    ensures WritesSeq(pre, pen, a + b) && MovesBy(pen, a + b) == MovesBy(MovesBy(pen, a), b)
    decreases |a|
  {
    if a == [] {
      assert a + b == b;
    } else {
      assert (a + b)[0] == a[0] && (a + b)[1..] == a[1..] + b;
      WritesConcat(pre, Moves(pen, a[0]), a[1..], b);
    }
  }

  lemma {:induction false} WritesPrefix(pre: Bytes, pen: Pen, ops: seq<Op>, k: nat)
    requires WritesSeq(pre, pen, ops) && k <= |ops|
    ensures WritesSeq(pre, pen, ops[..k])
    decreases k
  {
    if k > 0 {
      assert ops[..k][0] == ops[0] && ops[..k][1..] == ops[1..][..k - 1];
      WritesPrefix(pre, Moves(pen, ops[0]), ops[1..], k - 1);
    }
  }

  // -------------------------------------------------------------------------
  // Every call writes its preamble in order
  // -------------------------------------------------------------------------

  /** Four chunks: the constant preamble `pre`, a TIME record, and the reset definition and record. */
  ghost predicate IsOpening(pre: Bytes, chunks: seq<Bytes>) {
    |chunks| == 4 && chunks[0] == pre && IsTimeRecord(chunks[1])
  }

  lemma OpeningChunksAreAnOpening(o: Opening)
    ensures IsOpening(Preamble(), OpeningChunks(o))
  {
  }

  lemma {:induction false} ChunksWrite(pre: Bytes, slot: nat, stage: nat, chunks: seq<Bytes>)
    requires stage + |chunks| == 4
    requires stage == 0 ==> chunks[0] == pre && IsTimeRecord(chunks[1])
    requires stage == 1 ==> IsTimeRecord(chunks[0])
    ensures WritesSeq(pre, Pen(slot, stage), PreambleOps(slot, chunks))
    ensures MovesBy(Pen(slot, stage), PreambleOps(slot, chunks)) == Pen(slot, 4)
    decreases |chunks|
  {
    if chunks != [] {
      assert PreambleOps(slot, chunks)[1..] == PreambleOps(slot, chunks[1..]);
      ChunksWrite(pre, slot, stage + 1, chunks[1..]);
    }
  }

  lemma OpenWrites(pre: Bytes, pen: Pen, slot: nat, chunks: seq<Bytes>)
    requires IsOpening(pre, chunks)
    ensures var ops := [Open(slot)] + PreambleOps(slot, chunks);
      WritesSeq(pre, pen, ops) && MovesBy(pen, ops) == Pen(slot, 4)
  {
    ChunksWrite(pre, slot, 0, chunks);
    assert ([Open(slot)] + PreambleOps(slot, chunks))[1..] == PreambleOps(slot, chunks);
  }

  /** Moves that only lift the pen, then an opening. */
  lemma LiftThenOpen(pre: Bytes, pen: Pen, lift: seq<Op>, slot: nat, chunks: seq<Bytes>)
    requires IsOpening(pre, chunks)
    requires forall i | 0 <= i < |lift| :: lift[i].Remove? || lift[i].SetIndex?
    ensures var ops := lift + ([Open(slot)] + PreambleOps(slot, chunks));
      WritesSeq(pre, pen, ops) && MovesBy(pen, ops) == Pen(slot, 4)
    decreases |lift|
  {
    var open := [Open(slot)] + PreambleOps(slot, chunks);
    if lift == [] {
      assert lift + open == open;
      OpenWrites(pre, pen, slot, chunks);
    } else {
      assert (lift + open)[0] == lift[0] && (lift + open)[1..] == lift[1..] + open;
      LiftThenOpen(pre, Moves(pen, lift[0]), lift[1..], slot, chunks);
    }
  }

  lemma SplitMove(removal: seq<Op>, a: Op, b: Op, rest: seq<Op>)
    ensures removal + [a, b] + rest == (removal + [a]) + ([b] + rest)
  {
  }

  lemma NextSlotWrites(pre: Bytes, g: Geometry, c: Card, from: nat, chunks: seq<Bytes>, pen: Pen)
    requires IsOpening(pre, chunks)
    ensures var ops := NextSlotOps(g, c, from, chunks);
      WritesSeq(pre, pen, ops) && MovesBy(pen, ops) == Pen(Place(g, from, 1), 4)
  {
    var next := Place(g, from, 1);
    var lift := (if Present(c, next) then [Remove(next)] else []) + [SetIndex(next)];
    LiftThenOpen(pre, pen, lift, next, chunks);
    SplitMove(if Present(c, next) then [Remove(next)] else [], SetIndex(next), Open(next), PreambleOps(next, chunks));
  }

  lemma ResumeWrites(pre: Bytes, g: Geometry, c: Card, chunks: seq<Bytes>, pen: Pen)
    requires IsOpening(pre, chunks)
    ensures var ops := ResumeOps(g, c, chunks);
      WritesSeq(pre, pen, ops) && MovesBy(pen, ops) == Pen(ResumeSlot(g, c), 4)
  {
    var e := ReadIndex(g, c);
    match FirstNotFull(g, c, e, 0)
    case None => NextSlotWrites(pre, g, c, e, chunks, pen);
    case Some(slot) =>
      var lift := if slot != e then [SetIndex(slot)] else [];
      assert ResumeOps(g, c, chunks) == lift + ([Open(slot)] + PreambleOps(slot, chunks));
      LiftThenOpen(pre, pen, lift, slot, chunks);
  }

  function PenOf(ram: Option<Ram>): Pen {
    if ram.Some? then Pen(ram.value.slot, 4) else Lifted
  }

  lemma SyncsWrite(pre: Bytes, slot: nat, ops: seq<Op>)
    requires |ops| <= 2 && forall i | 0 <= i < |ops| :: ops[i].Sync? && ops[i].slot == slot
    ensures WritesSeq(pre, Pen(slot, 4), ops) && MovesBy(Pen(slot, 4), ops) == Pen(slot, 4)
  {
    if |ops| == 2 {
      assert ops[1..] == [ops[1]] && ops[1..][1..] == [];
      assert MovesBy(Pen(slot, 4), ops[1..][1..]) == Pen(slot, 4);
      assert MovesBy(Pen(slot, 4), ops[1..]) == Pen(slot, 4);
    } else if |ops| == 1 {
      assert ops[1..] == [];
    }
  }

  ghost predicate CallOpens(pre: Bytes, call: Call) {
    call.CallEnd? || IsOpening(pre, call.chunks)
  }

  lemma PlanWrites(pre: Bytes, g: Geometry, s: Sys, call: Call)
    requires CallOpens(pre, call)
    ensures WritesSeq(pre, PenOf(s.ram), Plan(g, s, call).ops)
    ensures MovesBy(PenOf(s.ram), Plan(g, s, call).ops) == PenOf(Plan(g, s, call).ram) || Plan(g, s, call).ram.None?
  {
    match call {
      case CallEnd => if s.ram.Some? { SyncsWrite(pre, s.ram.value.slot, CloseOps(s.ram)); }
      case CallBegin(chunks) =>
        var close := CloseOps(s.ram);
        var c := Apply(s.card, close);
        if s.ram.Some? { SyncsWrite(pre, s.ram.value.slot, close); }
        ResumeWrites(pre, g, c, chunks, MovesBy(PenOf(s.ram), close));
        WritesConcat(pre, PenOf(s.ram), close, ResumeOps(g, c, chunks));
      case CallWrite(rec, chunks) =>
        if s.ram.Some? && rec != [] {
          var slot := s.ram.value.slot;
          var a := Append(s.ram.value, rec);
          SyncsWrite(pre, slot, a.ops);
          var done := a.ops + CloseOps(a.ram);
          SyncsWrite(pre, slot, done);
          var rest := NextSlotOps(g, Apply(s.card, done), slot, chunks);
          NextSlotWrites(pre, g, Apply(s.card, done), slot, chunks, Pen(slot, 4));
          WritesConcat(pre, Pen(slot, 4), done, rest);
        }
    }
  }

  // -------------------------------------------------------------------------
  // What the head of a file is
  // -------------------------------------------------------------------------

  predicate RemovedAfter(ops: seq<Op>, s: nat, j: int) {
    exists r :: j < r < |ops| && 0 <= r && ops[r] == Remove(s)
  }

  /**
   The file now in slot `s` got its first bytes from the opening that wrote `ops[i]`, whose
   very next operation wrote the TIME record `head`.
  */
  ghost predicate HeadWrittenAt(pre: Bytes, ops: seq<Op>, s: nat, i: nat, head: Bytes) {
    && i + 1 < |ops| && ops[i] == Sync(s, pre) && ops[i + 1] == Sync(s, head) && IsTimeRecord(head)
    && !RemovedAfter(ops, s, i)
    && (forall j | 0 <= j < i && ops[j].Sync? && ops[j].slot == s :: RemovedAfter(ops[..i], s, j))
  }

  /** The head is settled: a second preamble, or the TIME record of the head's own opening. */
  ghost predicate Decided(pre: Bytes, ops: seq<Op>, file: Bytes, s: nat) {
    pre + pre <= file ||
    exists i: nat, head: Bytes :: HeadWrittenAt(pre, ops, s, i, head) && pre + head <= file
  }

  /** Every sync of slot `s` in the first `n` operations was followed by a removal. */
  predicate Cleared(ops: seq<Op>, s: nat) {
    forall j | 0 <= j < |ops| && ops[j].Sync? && ops[j].slot == s :: RemovedAfter(ops, s, j)
  }

  /** The last operation wrote the first bytes of the file in slot `s`. */
  predicate FirstBytesJustWritten(pre: Bytes, ops: seq<Op>, s: nat) {
    ops != [] && ops[|ops| - 1] == Sync(s, pre) && Cleared(ops[..|ops| - 1], s)
  }

  ghost predicate Headed(pre: Bytes, ops: seq<Op>, c: Card, pen: Pen, s: nat) {
    var file := Content(c, s);
    && (file == [] || file == pre || Decided(pre, ops, file, s))
    && (file == [] <==> Cleared(ops, s))
    && (FirstBytesJustWritten(pre, ops, s) ==> file == pre)
    && (forall i: nat, head: Bytes :: HeadWrittenAt(pre, ops, s, i, head) ==> pre + head <= file)
    && (pen.Pen? && pen.slot == s ==>
        && Present(c, s)
        && (pen.stage >= 1 ==> file != [])
        && (pen.stage >= 2 ==> Decided(pre, ops, file, s))
        && (pen.stage == 1 && file == pre ==> FirstBytesJustWritten(pre, ops, s)))
  }

  lemma RemovedGrows(ops: seq<Op>, op: Op, s: nat, j: int)
    requires RemovedAfter(ops, s, j)
    ensures RemovedAfter(ops + [op], s, j)
  {
    var r :| j < r < |ops| && 0 <= r && ops[r] == Remove(s);
    assert (ops + [op])[r] == Remove(s);
  }

  lemma DecidedGrows(pre: Bytes, ops: seq<Op>, op: Op, file: Bytes, more: Bytes, s: nat)
    requires Decided(pre, ops, file, s) && op != Remove(s)
    ensures Decided(pre, ops + [op], file + more, s)
  {
    if !(pre + pre <= file) {
      var i: nat, head :| HeadWrittenAt(pre, ops, s, i, head) && pre + head <= file;
      var next := ops + [op];
      assert next[..i] == ops[..i];
      assert forall j | 0 <= j < |ops| :: next[j] == ops[j];
      assert HeadWrittenAt(pre, next, s, i, head);
      assert pre + head <= file + more;
    }
  }

  lemma ClearedGrows(ops: seq<Op>, op: Op, s: nat)
    requires Cleared(ops, s) && !(op.Sync? && op.slot == s)
    ensures Cleared(ops + [op], s)
  {
    var next := ops + [op];
    forall j | 0 <= j < |next| && next[j].Sync? && next[j].slot == s ensures RemovedAfter(next, s, j) {
      RemovedGrows(ops, op, s, j);
    }
  }

  // -------------------------------------------------------------------------
  // One operation
  // -------------------------------------------------------------------------

  lemma DecidedIsLong(pre: Bytes, ops: seq<Op>, file: Bytes, s: nat)
    requires Decided(pre, ops, file, s) && pre != []
    ensures |file| > |pre|
  {
    if !(pre + pre <= file) {
      var i: nat, head :| HeadWrittenAt(pre, ops, s, i, head) && pre + head <= file;
    }
  }

  /** A head once written stays the head; the only new one is a TIME record right after the first bytes. */
  lemma HeadsPersist(pre: Bytes, ops: seq<Op>, op: Op, s: nat, i: nat, head: Bytes)
    requires HeadWrittenAt(pre, ops + [op], s, i, head)
    ensures op != Remove(s)
    ensures i + 1 < |ops| ==> HeadWrittenAt(pre, ops, s, i, head)
    ensures i + 1 == |ops| ==> FirstBytesJustWritten(pre, ops, s) && op == Sync(s, head)
  {
    var next := ops + [op];
    assert forall j | 0 <= j < |ops| :: next[j] == ops[j];
    assert next[|ops|] == op;
    assert next[..i] == ops[..i];
    if i + 1 < |ops| && RemovedAfter(ops, s, i) {
      RemovedGrows(ops, op, s, i);
    }
  }

  lemma SyncHeaded(pre: Bytes, ops: seq<Op>, c: Card, pen: Pen, tail: Bytes)
    requires pen.Pen? && pre != [] && Headed(pre, ops, c, pen, pen.slot) && Writes(pre, pen, Sync(pen.slot, tail))
    ensures var op := Sync(pen.slot, tail); Headed(pre, ops + [op], Step(c, op), Moves(pen, op), pen.slot)
  {
    var s := pen.slot;
    var op := Sync(s, tail);
    var next := ops + [op];
    var file := Content(c, s);
    assert Content(Step(c, op), s) == file + tail;
    assert next[..|next| - 1] == ops;
    assert next[|ops|] == op;
    assert !Cleared(next, s) by {
      if RemovedAfter(next, s, |ops|) { assert false; }
    }
    forall i: nat, head | HeadWrittenAt(pre, next, s, i, head) ensures pre + head <= file + tail {
      HeadsPersist(pre, ops, op, s, i, head);
    }
    if Decided(pre, ops, file, s) {
      DecidedGrows(pre, ops, op, file, tail, s);
      DecidedIsLong(pre, ops, file, s);
      DecidedIsLong(pre, next, file + tail, s);
    } else if pen.stage == 0 {
      if file == [] {
        assert file + tail == pre;
      } else {
        assert pre + pre <= file + tail;
      }
    } else {
      var i := |ops| - 1;
      assert next[..i] == ops[..i];
      assert forall j | 0 <= j < |ops| :: next[j] == ops[j];
      assert HeadWrittenAt(pre, next, s, i, tail);
    }
  }

  lemma OtherHeaded(pre: Bytes, ops: seq<Op>, c: Card, pen: Pen, op: Op, s: nat)
    requires pre != [] && s < |c.slots| && Headed(pre, ops, c, pen, s) && Writes(pre, pen, op)
    requires !(op.Sync? && op.slot == s) && op != Remove(s)
    ensures Headed(pre, ops + [op], Step(c, op), Moves(pen, op), s)
  {
    var next := ops + [op];
    var file := Content(c, s);
    assert Content(Step(c, op), s) == file;
    if file == [] {
      ClearedGrows(ops, op, s);
    } else if Cleared(next, s) {
      forall j | 0 <= j < |ops| && ops[j].Sync? && ops[j].slot == s ensures RemovedAfter(ops, s, j) {
        assert next[j] == ops[j] && RemovedAfter(next, s, j);
        var r :| j < r < |next| && 0 <= r && next[r] == Remove(s);
        assert ops[r] == Remove(s);
      }
      assert false;
    }
    forall i: nat, head | HeadWrittenAt(pre, next, s, i, head) ensures pre + head <= file {
      HeadsPersist(pre, ops, op, s, i, head);
    }
    if Decided(pre, ops, file, s) {
      DecidedGrows(pre, ops, op, file, [], s);
      assert file + [] == file;
    }
  }

  lemma RemoveHeaded(pre: Bytes, ops: seq<Op>, c: Card, pen: Pen, s: nat)
    requires pre != [] && s < |c.slots| && Headed(pre, ops, c, pen, s)
    ensures Headed(pre, ops + [Remove(s)], Step(c, Remove(s)), Lifted, s)
  {
    var next := ops + [Remove(s)];
    assert Content(Step(c, Remove(s)), s) == [];
    assert next[|ops|] == Remove(s);
    forall j | 0 <= j < |next| && next[j].Sync? && next[j].slot == s ensures RemovedAfter(next, s, j) {
    }
    forall i: nat, head | HeadWrittenAt(pre, next, s, i, head) ensures false {
      HeadsPersist(pre, ops, Remove(s), s, i, head);
    }
  }

  lemma StepHeaded(pre: Bytes, ops: seq<Op>, c: Card, pen: Pen, op: Op, s: nat)
    requires pre != [] && s < |c.slots|
    requires Headed(pre, ops, c, pen, s) && Writes(pre, pen, op)
    ensures Headed(pre, ops + [op], Step(c, op), Moves(pen, op), s)
  {
    if op.Sync? && op.slot == s {
      SyncHeaded(pre, ops, c, pen, op.tail);
    } else if op == Remove(s) {
      RemoveHeaded(pre, ops, c, pen, s);
    } else {
      OtherHeaded(pre, ops, c, pen, op, s);
    }
  }

  lemma {:induction false} SeqHeaded(pre: Bytes, past: seq<Op>, c: Card, pen: Pen, ops: seq<Op>, s: nat)
    requires pre != [] && s < |c.slots|
    requires Headed(pre, past, c, pen, s) && WritesSeq(pre, pen, ops)
    ensures Headed(pre, past + ops, Apply(c, ops), MovesBy(pen, ops), s)
    decreases |ops|
  {
    if ops == [] {
      assert past + ops == past;
    } else {
      StepHeaded(pre, past, c, pen, ops[0], s);
      SeqHeaded(pre, past + [ops[0]], Step(c, ops[0]), Moves(pen, ops[0]), ops[1..], s);
      assert past + ops == past + [ops[0]] + ops[1..];
    }
  }

  // -------------------------------------------------------------------------
  // Every run
  // -------------------------------------------------------------------------

  ghost predicate RunOpens(pre: Bytes, events: seq<Event>) {
    forall i | 0 <= i < |events| :: !events[i].IndexDamaged? ==> CallOpens(pre, events[i].call)
  }

  lemma EventHeaded(pre: Bytes, g: Geometry, s: Sys, e: Event, past: seq<Op>, slot: nat)
    requires pre != [] && slot < |s.card.slots| && (!e.IndexDamaged? ==> CallOpens(pre, e.call))
    requires Headed(pre, past, s.card, PenOf(s.ram), slot)
    ensures Headed(pre, past + EventOps(g, s, e), Next(g, s, e).card, PenOf(Next(g, s, e).ram), slot)
    ensures WritesSeq(pre, PenOf(s.ram), EventOps(g, s, e))
  {
    var ops := EventOps(g, s, e);
    match e {
      case Done(call) => PlanWrites(pre, g, s, call);
      case Cut(call, after) =>
        PlanWrites(pre, g, s, call);
        if after < |Plan(g, s, call).ops| {
          WritesPrefix(pre, PenOf(s.ram), Plan(g, s, call).ops, after);
        }
      case IndexDamaged(i) =>
        assert ops[1..] == [];
        assert MovesBy(PenOf(s.ram), ops) == MovesBy(PenOf(s.ram), ops[1..]);
    }
    SeqHeaded(pre, past, s.card, PenOf(s.ram), ops, slot);
  }

  /** The same after any prefix of one event's operations. */
  lemma EventCutHeaded(pre: Bytes, g: Geometry, s: Sys, e: Event, past: seq<Op>, k: nat, slot: nat)
    requires pre != [] && slot < |s.card.slots| && (!e.IndexDamaged? ==> CallOpens(pre, e.call))
    requires Headed(pre, past, s.card, PenOf(s.ram), slot) && k <= |EventOps(g, s, e)|
    ensures Headed(pre, past + EventOps(g, s, e)[..k], Apply(s.card, EventOps(g, s, e)[..k]), Lifted, slot)
  {
    var ops := EventOps(g, s, e);
    EventHeaded(pre, g, s, e, past, slot);
    WritesPrefix(pre, PenOf(s.ram), ops, k);
    SeqHeaded(pre, past, s.card, PenOf(s.ram), ops[..k], slot);
    PenLifts(pre, past + ops[..k], Apply(s.card, ops[..k]), MovesBy(PenOf(s.ram), ops[..k]), slot);
  }

  lemma PenLifts(pre: Bytes, ops: seq<Op>, c: Card, pen: Pen, slot: nat)
    requires Headed(pre, ops, c, pen, slot)
    ensures Headed(pre, ops, c, Lifted, slot)
  {
  }

  lemma CutAcross(past: seq<Op>, a: seq<Op>, b: seq<Op>, k: nat)
    requires |a| <= k <= |a| + |b|
    ensures (a + b)[..k] == a + b[..k - |a|] && past + (a + b)[..k] == past + a + b[..k - |a|]
  {
    assert (a + b)[..k] == a + b[..k - |a|];
    assert past + (a + b[..k - |a|]) == past + a + b[..k - |a|];
  }

  /** Cutting a run beyond its first event cuts the run that follows it. */
  lemma CutBeyond(g: Geometry, s: Sys, events: seq<Event>, past: seq<Op>, k: nat)
    requires events != [] && |EventOps(g, s, events[0])| <= k <= |RunOps(g, s, events)|
    ensures k - |EventOps(g, s, events[0])| <= |RunOps(g, Next(g, s, events[0]), events[1..])|
    ensures past + RunOps(g, s, events)[..k] == past + EventOps(g, s, events[0]) +
      RunOps(g, Next(g, s, events[0]), events[1..])[..k - |EventOps(g, s, events[0])|]
    ensures Apply(s.card, RunOps(g, s, events)[..k]) == Apply(Next(g, s, events[0]).card,
      RunOps(g, Next(g, s, events[0]), events[1..])[..k - |EventOps(g, s, events[0])|])
  {
    FirstThenRest(g, s, events);
    CutAcross(past, EventOps(g, s, events[0]), RunOps(g, Next(g, s, events[0]), events[1..]), k);
    AppliedAcross(s.card, EventOps(g, s, events[0]), RunOps(g, Next(g, s, events[0]), events[1..]), k);
  }

  lemma FirstThenRest(g: Geometry, s: Sys, events: seq<Event>)
    requires events != []
    ensures RunOps(g, s, events) == EventOps(g, s, events[0]) + RunOps(g, Next(g, s, events[0]), events[1..])
    ensures Next(g, s, events[0]).card == Apply(s.card, EventOps(g, s, events[0]))
  {
  }

  lemma AppliedAcross(c: Card, a: seq<Op>, b: seq<Op>, k: nat)
    requires |a| <= k <= |a| + |b|
    ensures Apply(c, (a + b)[..k]) == Apply(Apply(c, a), b[..k - |a|])
  {
    assert (a + b)[..k] == a + b[..k - |a|];
    ApplyConcat(c, a, b[..k - |a|]);
  }

  /** Headed as a value, for lemmas that only pass it on. */
  ghost function HeadOk(pre: Bytes, slot: nat): (seq<Op>, Card) -> bool {
    (ops: seq<Op>, c: Card) => Headed(pre, ops, c, Lifted, slot)
  }

  /** The head of slot `slot` is in order once `ops` have followed `past`. */
  ghost predicate HeadedAfter(pre: Bytes, past: seq<Op>, c: Card, ops: seq<Op>, slot: nat) {
    HeadOk(pre, slot)(past + ops, Apply(c, ops))
  }

  lemma WithinFirstEvent(
    pre: Bytes, g: Geometry, s: Sys, events: seq<Event>, past: seq<Op>, k: nat, slot: nat)
    requires Ready(pre, s, events, past, slot) && events != [] && k <= |EventOps(g, s, events[0])|
    ensures k <= |RunOps(g, s, events)| && HeadedAfter(pre, past, s.card, RunOps(g, s, events)[..k], slot)
  {
    EventCutHeaded(pre, g, s, events[0], past, k, slot);
    assert RunOps(g, s, events)[..k] == EventOps(g, s, events[0])[..k];
  }

  /** What a run from `s` needs. */
  ghost predicate Ready(pre: Bytes, s: Sys, events: seq<Event>, past: seq<Op>, slot: nat) {
    pre != [] && slot < |s.card.slots| && RunOpens(pre, events) && Headed(pre, past, s.card, PenOf(s.ram), slot)
  }

  lemma ReadyForTheRest(pre: Bytes, g: Geometry, s: Sys, events: seq<Event>, past: seq<Op>, slot: nat)
    requires Ready(pre, s, events, past, slot) && events != []
    ensures Ready(pre, Next(g, s, events[0]), events[1..], past + EventOps(g, s, events[0]), slot)
  {
    EventHeaded(pre, g, s, events[0], past, slot);
  }

  /** The same, at every card operation of a run. */
  lemma {:induction false} RunHeaded(
    pre: Bytes, g: Geometry, s: Sys, events: seq<Event>, past: seq<Op>, k: nat, slot: nat)
    requires Ready(pre, s, events, past, slot) && k <= |RunOps(g, s, events)|
    ensures HeadedAfter(pre, past, s.card, RunOps(g, s, events)[..k], slot)
    decreases |events|, 1
  {
    if events == [] {
      NothingHappened(pre, past, s.card, PenOf(s.ram), slot);
    } else if k <= |EventOps(g, s, events[0])| {
      WithinFirstEvent(pre, g, s, events, past, k, slot);
    } else {
      BeyondFirstEvent(pre, g, s, events, past, k, slot);
      CutBeyond(g, s, events, past, k);
    }
  }

  lemma {:induction false} BeyondFirstEvent(
    pre: Bytes, g: Geometry, s: Sys, events: seq<Event>, past: seq<Op>, k: nat, slot: nat)
    requires Ready(pre, s, events, past, slot)
    requires events != [] && |EventOps(g, s, events[0])| <= k <= |RunOps(g, s, events)|
    ensures HeadedAfter(pre, past + EventOps(g, s, events[0]), Next(g, s, events[0]).card,
      RunOps(g, Next(g, s, events[0]), events[1..])[..k - |EventOps(g, s, events[0])|], slot)
    decreases |events|, 0
  {
    var ops := EventOps(g, s, events[0]);
    ReadyForTheRest(pre, g, s, events, past, slot);
    RunHeaded(pre, g, Next(g, s, events[0]), events[1..], past + ops, k - |ops|, slot);
  }

  lemma NothingHappened(pre: Bytes, past: seq<Op>, c: Card, pen: Pen, slot: nat)
    requires Headed(pre, past, c, pen, slot)
    ensures HeadedAfter(pre, past, c, [], slot)
  {
    assert past + [] == past;
    PenLifts(pre, past, c, pen, slot);
  }

  lemma BlankHeaded(pre: Bytes, c: Card, slot: nat)
    requires pre != [] && Absent(c, slot)
    ensures Headed(pre, [], c, Lifted, slot)
  {
  }

  /** The reported time is the head's, if the head has one, and 0 if it has not. */
  ghost predicate ReportsHeadTime(pre: Bytes, ops: seq<Op>, slot: nat, time: nat) {
    && (forall i: nat, t: u64, u: u32, s: Source :: HeadWrittenAt(pre, ops, slot, i, TimeRecord(t, u, s)) ==>
          time == if s == NoSource then 0 else u)
    && (time != 0 ==> exists i: nat, t: u64, u: u32, s: Source ::
          HeadWrittenAt(pre, ops, slot, i, TimeRecord(t, u, s)) && time == u)
  }

  lemma TimeIsOfHead(pre: Bytes, ops: seq<Op>, c: Card, slot: nat)
    requires Headed(pre, ops, c, Lifted, slot)
    requires |pre| == HEAD_TIME_OFFSET && pre[..3] == [HEAD1, HEAD2, MSG_FMT]
    ensures ReportsHeadTime(pre, ops, slot, SlotTimeUtc(c, slot))
  {
    var file := Content(c, slot);
    forall i: nat, t: u64, u: u32, s: Source | HeadWrittenAt(pre, ops, slot, i, TimeRecord(t, u, s))
      ensures SlotTimeUtc(c, slot) == if s == NoSource then 0 else u
    {
      var rec := TimeRecord(t, u, s);
      assert pre + rec <= file;
      assert file[HEAD_TIME_OFFSET..HEAD_TIME_OFFSET + 16] == rec;
      HeadTimeOfRecord(t, u, s);
    }
    if pre + pre <= file {
      var head := file[HEAD_TIME_OFFSET..HEAD_TIME_OFFSET + 16];
      assert head == pre[..16] && head[..3] == pre[..3];
      assert SlotTimeUtc(c, slot) == 0;
    } else if SlotTimeUtc(c, slot) != 0 {
      var i: nat, rec :| HeadWrittenAt(pre, ops, slot, i, rec) && pre + rec <= file;
      var t: u64, u: u32, s: Source :| rec == TimeRecord(t, u, s);
      HeadTimeOfRecord(t, u, s);
    }
  }

  /**
   On every run from a blank card, with cuts between any two card operations and any number
   of reopenings, the time reported for a slot is that of the TIME record written right
   after the file's first bytes by the opening that wrote those, or 0 when there is none or
   it held no wall clock; never bytes of another record.
  */
  lemma SlotTimeIsOfItsHead(pre: Bytes, g: Geometry, blank: Card, events: seq<Event>, k: nat, slot: nat)
    requires |pre| == HEAD_TIME_OFFSET && pre[..3] == [HEAD1, HEAD2, MSG_FMT]
    requires Absent(blank, slot)
    requires RunOpens(pre, events) && k <= |RunOps(g, Sys(blank, None), events)|
    ensures var ops := RunOps(g, Sys(blank, None), events)[..k];
      ReportsHeadTime(pre, ops, slot, SlotTimeUtc(Apply(blank, ops), slot))
  {
    BlankHeaded(pre, blank, slot);
    RunHeaded(pre, g, Sys(blank, None), events, [], k, slot);
    var ops := RunOps(g, Sys(blank, None), events)[..k];
    assert [] + ops == ops;
    TimeIsOfHead(pre, ops, Apply(blank, ops), slot);
  }
}
