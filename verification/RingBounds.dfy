/**
 What `begin()` does to any card at all, what a power cut can cost, and how large the ring
 can grow.
*/
module RingBounds {
  import opened Cards
  import opened RingSpec
  import opened RingSafety

  function Joined(chunks: seq<Bytes>): Bytes {
    if chunks == [] then [] else chunks[0] + Joined(chunks[1..])
  }

  function RemovedSlots(ops: seq<Op>): seq<nat> {
    if ops == [] then []
    else (if ops[0].Remove? then [ops[0].slot] else []) + RemovedSlots(ops[1..])
  }

  // -------------------------------------------------------------------------
  // begin() on any card
  // -------------------------------------------------------------------------

  lemma {:induction false} PreambleRemovesNothing(slot: nat, chunks: seq<Bytes>)
    ensures RemovedSlots(PreambleOps(slot, chunks)) == []
    decreases |chunks|
  {
    if chunks != [] {
      assert PreambleOps(slot, chunks)[1..] == PreambleOps(slot, chunks[1..]);
      PreambleRemovesNothing(slot, chunks[1..]);
    }
  }

  lemma {:induction false} PreambleApplied(c: Card, slot: nat, chunks: seq<Bytes>)
    requires Present(c, slot)
    ensures Apply(c, PreambleOps(slot, chunks)) == Extended(c, slot, Joined(chunks))
    decreases |chunks|
  {
    if chunks == [] {
      ExtendedByNothing(c, slot);
    } else {
      assert PreambleOps(slot, chunks)[1..] == PreambleOps(slot, chunks[1..]);
      PreambleApplied(Extended(c, slot, chunks[0]), slot, chunks[1..]);
      ExtendedTwice(c, slot, chunks[0], Joined(chunks[1..]));
    }
  }

  /** `c` with `more` at the end of one file. */
  function Extended(c: Card, slot: nat, more: Bytes): (d: Card)
    requires Present(c, slot)
    ensures Present(d, slot)
  {
    c.(slots := c.slots[slot := Some(Content(c, slot) + more)])
  }

  lemma ExtendedByNothing(c: Card, slot: nat)
    requires Present(c, slot)
    ensures Extended(c, slot, []) == c
  {
    assert Content(c, slot) + [] == Content(c, slot);
    assert c.slots[slot := Some(Content(c, slot))] == c.slots;
  }

  lemma ExtendedTwice(c: Card, slot: nat, a: Bytes, b: Bytes)
    requires Present(c, slot)
    ensures Extended(Extended(c, slot, a), slot, b) == Extended(c, slot, a + b)
  {
    assert (Content(c, slot) + a) + b == Content(c, slot) + (a + b);
    var last := Some(Content(c, slot) + (a + b));
    assert c.slots[slot := Some(Content(c, slot) + a)][slot := last] == c.slots[slot := last];
  }

  lemma PreambleEffect(c: Card, slot: nat, chunks: seq<Bytes>)
    requires Present(c, slot)
    ensures Apply(c, PreambleOps(slot, chunks)) ==
      c.(slots := c.slots[slot := Some(Content(c, slot) + Joined(chunks))])
    ensures RemovedSlots(PreambleOps(slot, chunks)) == []
  {
    PreambleApplied(c, slot, chunks);
    PreambleRemovesNothing(slot, chunks);
  }

  lemma OpenEffect(c: Card, slot: nat, chunks: seq<Bytes>)
    requires slot < |c.slots|
    ensures var ops := [Open(slot)] + PreambleOps(slot, chunks);
      Apply(c, ops) == c.(slots := c.slots[slot := Some(Content(c, slot) + Joined(chunks))]) &&
      RemovedSlots(ops) == []
  {
    var ops := [Open(slot)] + PreambleOps(slot, chunks);
    var d := Step(c, Open(slot));
    assert ops[1..] == PreambleOps(slot, chunks);
    PreambleEffect(d, slot, chunks);
    assert Content(d, slot) == Content(c, slot);
    assert d.slots[slot := Some(Content(c, slot) + Joined(chunks))]
        == c.slots[slot := Some(Content(c, slot) + Joined(chunks))];
  }

  lemma MoveEffect(c: Card, slot: nat, chunks: seq<Bytes>)
    requires slot < |c.slots|
    ensures var ops := [SetIndex(slot), Open(slot)] + PreambleOps(slot, chunks);
      Apply(c, ops) == Card(c.slots[slot := Some(Content(c, slot) + Joined(chunks))], Some(slot)) &&
      RemovedSlots(ops) == []
  {
    var ops := [SetIndex(slot), Open(slot)] + PreambleOps(slot, chunks);
    assert ops[1..] == [Open(slot)] + PreambleOps(slot, chunks);
    OpenEffect(Step(c, SetIndex(slot)), slot, chunks);
  }

  /** A rotation puts a fresh file in the next slot and changes no other. */
  lemma NextSlotEffect(g: Geometry, c: Card, from: nat, chunks: seq<Bytes>)
    requires |c.slots| == g.n
    ensures var next := Place(g, from, 1);
      var ops := NextSlotOps(g, c, from, chunks);
      Apply(c, ops) == Card(c.slots[next := Some(Joined(chunks))], Some(next)) &&
      RemovedSlots(ops) == if Present(c, next) then [next] else []
  {
    var next := Place(g, from, 1);
    var ops := NextSlotOps(g, c, from, chunks);
    var rest := [SetIndex(next), Open(next)] + PreambleOps(next, chunks);
    assert [] + Joined(chunks) == Joined(chunks);
    if Present(c, next) {
      assert ops[1..] == rest;
      MoveEffect(Step(c, Remove(next)), next, chunks);
      assert Step(c, Remove(next)).slots[next := Some(Joined(chunks))] == c.slots[next := Some(Joined(chunks))];
    } else {
      assert ops == rest;
      MoveEffect(c, next, chunks);
    }
  }

  /** The walk from the index: how many full slots it passes, n of them if all are full. */
  lemma IndexWalk(g: Geometry, c: Card) returns (k: nat)
    requires |c.slots| == g.n
    ensures k <= g.n && forall j | 0 <= j < k :: Full(g, c, Place(g, ReadIndex(g, c), j))
    ensures AllFull(g, c) <==> k == g.n
    ensures k == g.n ==> FirstNotFull(g, c, ReadIndex(g, c), 0) == None
    ensures k < g.n ==>
      var slot := Place(g, ReadIndex(g, c), k);
      slot < g.n && !Full(g, c, slot) && FirstNotFull(g, c, ReadIndex(g, c), 0) == Some(slot)
  {
    var e := ReadIndex(g, c);
    k := WalkFinds(g, c, e, 0);
    if k == g.n {
      forall s | 0 <= s < g.n ensures Full(g, c, s) {
        var j := if s >= e then s - e else s + g.n - e;
        PlaceIs(g, e, j);
        assert Full(g, c, Place(g, e, j));
      }
    } else {
      PlaceIs(g, e, k);
    }
  }

  lemma ResumeEffect(g: Geometry, c: Card, chunks: seq<Bytes>, slot: nat)
    requires |c.slots| == g.n && FirstNotFull(g, c, ReadIndex(g, c), 0) == Some(slot) && slot < g.n
    ensures var d := Apply(c, ResumeOps(g, c, chunks));
      d.slots == c.slots[slot := Some(Content(c, slot) + Joined(chunks))] &&
      ReadIndex(g, d) == slot && RemovedSlots(ResumeOps(g, c, chunks)) == []
  {
    var ops := ResumeOps(g, c, chunks);
    if slot == ReadIndex(g, c) {
      assert ops == [Open(slot)] + PreambleOps(slot, chunks);
      OpenEffect(c, slot, chunks);
    } else {
      assert ops == [SetIndex(slot), Open(slot)] + PreambleOps(slot, chunks);
      MoveEffect(c, slot, chunks);
    }
  }

  lemma BeginWithoutHandle(g: Geometry, c: Card, chunks: seq<Bytes>)
    ensures Begin(g, c, None, chunks) == Outcome(ResumeOps(g, c, chunks), Some(Ram(ResumeSlot(g, c), [], 0)))
  {
    assert [] + ResumeOps(g, c, chunks) == ResumeOps(g, c, chunks);
  }

  /**
   On any card with any index, `begin()` appends its preamble to the first slot in ring
   order from the index that is not full, removing nothing and leaving every other slot as
   it was; only when all are full does it remove one file, the one after the index. Either
   way the index then names the slot it opened.
  */
  lemma BeginEffect(g: Geometry, c: Card, chunks: seq<Bytes>) returns (k: nat)
    requires |c.slots| == g.n
    ensures var out := Begin(g, c, None, chunks);
      var slot := out.ram.value.slot;
      var d := Apply(c, out.ops);
      && out.ram == Some(Ram(slot, [], 0)) && slot < g.n && ReadIndex(g, d) == slot
      && (AllFull(g, c) ==>
           slot == Place(g, ReadIndex(g, c), 1) && RemovedSlots(out.ops) == [slot] &&
           d.slots == c.slots[slot := Some(Joined(chunks))])
      && (!AllFull(g, c) ==>
           k < g.n && slot == Place(g, ReadIndex(g, c), k) && !Full(g, c, slot) &&
           (forall j | 0 <= j < k :: Full(g, c, Place(g, ReadIndex(g, c), j))) &&
           RemovedSlots(out.ops) == [] &&
           d.slots == c.slots[slot := Some(Content(c, slot) + Joined(chunks))])
  {
    var e := ReadIndex(g, c);
    BeginWithoutHandle(g, c, chunks);
    k := IndexWalk(g, c);
    if k == g.n {
      PlaceIs(g, e, 1);
      NextSlotEffect(g, c, e, chunks);
    } else {
      ResumeEffect(g, c, chunks, Place(g, e, k));
    }
  }

  // -------------------------------------------------------------------------
  // How large a file can be, and what a cut can cost
  // -------------------------------------------------------------------------

  /** A preamble of at most P bytes, and records of at most L. */
  predicate CallWithin(call: Call, P: nat, L: nat) {
    match call
    case CallBegin(chunks) => |Joined(chunks)| <= P
    case CallWrite(rec, chunks) => |rec| <= L && |Joined(chunks)| <= P
    case CallEnd => true
  }

  predicate EventWithin(e: Event, P: nat, L: nat) {
    !e.IndexDamaged? ==> CallWithin(e.call, P, L)
  }

  /** The most a file that is not full can hold. */
  function NotFullMax(g: Geometry): nat {
    if g.size > 0 then g.size - 1 else 0
  }

  predicate SmallFiles(c: Card, bound: nat) {
    forall s | 0 <= s < |c.slots| :: |Content(c, s)| <= bound
  }

  function SmallWithin(bound: nat): Card -> bool {
    c => SmallFiles(c, bound)
  }

  /** Between calls: the sync counter is the unsynced tail, below one interval. */
  predicate Settled(g: Geometry, s: Sys, P: nat) {
    |s.card.slots| == g.n &&
    (s.ram.Some? ==>
      var ram := s.ram.value;
      Present(s.card, ram.slot) &&
      |ram.pending| == ram.since < FLUSH_INTERVAL_BYTES &&
      |Content(s.card, ram.slot)| + |ram.pending| <= NotFullMax(g) + P)
  }

  lemma SmallStep(c: Card, op: Op, bound: nat)
    requires SmallFiles(c, bound)
    requires op.Sync? ==> |Content(c, op.slot)| + |op.tail| <= bound
    ensures SmallFiles(Step(c, op), bound)
  {
    forall s | 0 <= s < |c.slots| ensures |Content(Step(c, op), s)| <= bound {
      assert |Content(c, s)| <= bound;
    }
  }

  lemma {:induction false} PreambleSmall(c: Card, slot: nat, chunks: seq<Bytes>, bound: nat)
    requires SmallFiles(c, bound) && |Content(c, slot)| + |Joined(chunks)| <= bound
    ensures Along(SmallWithin(bound), c, PreambleOps(slot, chunks))
    decreases |chunks|
  {
    if chunks != [] {
      assert PreambleOps(slot, chunks)[1..] == PreambleOps(slot, chunks[1..]);
      SmallStep(c, Sync(slot, chunks[0]), bound);
      PreambleSmall(Step(c, Sync(slot, chunks[0])), slot, chunks[1..], bound);
    }
  }

  lemma OpenSmall(c: Card, slot: nat, chunks: seq<Bytes>, bound: nat)
    requires SmallFiles(c, bound) && |Content(c, slot)| + |Joined(chunks)| <= bound
    ensures Along(SmallWithin(bound), c, [Open(slot)] + PreambleOps(slot, chunks))
  {
    var ops := [Open(slot)] + PreambleOps(slot, chunks);
    assert ops[1..] == PreambleOps(slot, chunks);
    SmallStep(c, Open(slot), bound);
    PreambleSmall(Step(c, Open(slot)), slot, chunks, bound);
  }

  lemma MoveSmall(c: Card, slot: nat, chunks: seq<Bytes>, bound: nat)
    requires SmallFiles(c, bound) && |Content(c, slot)| + |Joined(chunks)| <= bound
    ensures Along(SmallWithin(bound), c, [SetIndex(slot), Open(slot)] + PreambleOps(slot, chunks))
  {
    var ops := [SetIndex(slot), Open(slot)] + PreambleOps(slot, chunks);
    assert ops[1..] == [Open(slot)] + PreambleOps(slot, chunks);
    SmallStep(c, SetIndex(slot), bound);
    OpenSmall(Step(c, SetIndex(slot)), slot, chunks, bound);
  }

  lemma NextSlotSmall(g: Geometry, c: Card, from: nat, chunks: seq<Bytes>, bound: nat)
    requires |c.slots| == g.n && SmallFiles(c, bound) && |Joined(chunks)| <= bound
    ensures Along(SmallWithin(bound), c, NextSlotOps(g, c, from, chunks))
  {
    var next := Place(g, from, 1);
    var ops := NextSlotOps(g, c, from, chunks);
    if Present(c, next) {
      assert ops[1..] == [SetIndex(next), Open(next)] + PreambleOps(next, chunks);
      SmallStep(c, Remove(next), bound);
      MoveSmall(Step(c, Remove(next)), next, chunks, bound);
    } else {
      assert ops == [SetIndex(next), Open(next)] + PreambleOps(next, chunks);
      MoveSmall(c, next, chunks, bound);
    }
  }

  lemma ResumeSmall(g: Geometry, c: Card, chunks: seq<Bytes>, P: nat, L: nat)
    requires |c.slots| == g.n && SmallFiles(c, NotFullMax(g) + P + L) && |Joined(chunks)| <= P
    ensures Along(SmallWithin(NotFullMax(g) + P + L), c, ResumeOps(g, c, chunks))
    ensures var slot := ResumeSlot(g, c);
      var d := Apply(c, ResumeOps(g, c, chunks));
      Present(d, slot) && |Content(d, slot)| <= NotFullMax(g) + P
  {
    var e := ReadIndex(g, c);
    var k := IndexWalk(g, c);
    if k == g.n {
      RotatingResumeSmall(g, c, chunks, NotFullMax(g) + P + L);
    } else {
      var slot := Place(g, e, k);
      ResumeInSmall(g, c, chunks, slot, NotFullMax(g) + P + L);
      ResumeEffect(g, c, chunks, slot);
    }
  }

  lemma RotatingResumeSmall(g: Geometry, c: Card, chunks: seq<Bytes>, bound: nat)
    requires |c.slots| == g.n && SmallFiles(c, bound) && |Joined(chunks)| <= bound
    requires FirstNotFull(g, c, ReadIndex(g, c), 0) == None
    ensures Along(SmallWithin(bound), c, ResumeOps(g, c, chunks))
    ensures var d := Apply(c, ResumeOps(g, c, chunks));
      Present(d, ResumeSlot(g, c)) && Content(d, ResumeSlot(g, c)) == Joined(chunks)
  {
    PlaceIs(g, ReadIndex(g, c), 1);
    NextSlotSmall(g, c, ReadIndex(g, c), chunks, bound);
    NextSlotEffect(g, c, ReadIndex(g, c), chunks);
  }

  lemma ResumeInSmall(g: Geometry, c: Card, chunks: seq<Bytes>, slot: nat, bound: nat)
    requires |c.slots| == g.n && SmallFiles(c, bound) && slot < g.n
    requires |Content(c, slot)| + |Joined(chunks)| <= bound
    requires FirstNotFull(g, c, ReadIndex(g, c), 0) == Some(slot)
    ensures Along(SmallWithin(bound), c, ResumeOps(g, c, chunks))
  {
    ResumeOpsAre(g, c, chunks, slot);
    if slot == ReadIndex(g, c) {
      OpenSmall(c, slot, chunks, bound);
    } else {
      MoveSmall(c, slot, chunks, bound);
    }
  }

  lemma ResumeOpsAre(g: Geometry, c: Card, chunks: seq<Bytes>, slot: nat)
    requires FirstNotFull(g, c, ReadIndex(g, c), 0) == Some(slot)
    ensures ResumeOps(g, c, chunks) ==
      if slot == ReadIndex(g, c) then [Open(slot)] + PreambleOps(slot, chunks)
      else [SetIndex(slot), Open(slot)] + PreambleOps(slot, chunks)
  {
  }

  lemma CloseSmall(g: Geometry, s: Sys, P: nat, L: nat)
    requires Settled(g, s, P) && SmallFiles(s.card, NotFullMax(g) + P + L)
    ensures Along(SmallWithin(NotFullMax(g) + P + L), s.card, CloseOps(s.ram))
  {
    var ops := CloseOps(s.ram);
    if s.ram.Some? {
      SmallStep(s.card, ops[0], NotFullMax(g) + P + L);
      assert ops[1..] == [];
    }
  }

  /** Appending a record, and the close a rotation adds, keep within one record of the rest. */
  lemma AppendSmall(g: Geometry, s: Sys, rec: Bytes, P: nat, L: nat)
    requires Settled(g, s, P) && SmallFiles(s.card, NotFullMax(g) + P + L)
    requires s.ram.Some? && |rec| <= L
    ensures var a := Append(s.ram.value, rec);
      var done := a.ops + CloseOps(a.ram);
      var bound := NotFullMax(g) + P + L;
      && a.ram.Some? && a.ram.value.slot == s.ram.value.slot
      && Along(SmallWithin(bound), s.card, a.ops) && Along(SmallWithin(bound), s.card, done)
      && Durable(a.ops) + a.ram.value.pending == s.ram.value.pending + rec
      && Durable(done) == s.ram.value.pending + rec
      && Apply(s.card, a.ops).slots ==
           s.card.slots[s.ram.value.slot := Some(Content(s.card, s.ram.value.slot) + Durable(a.ops))]
      && |a.ram.value.pending| == a.ram.value.since < FLUSH_INTERVAL_BYTES
  {
    var ram := s.ram.value;
    var a := Append(ram, rec);
    var done := a.ops + CloseOps(a.ram);
    var tail := ram.pending + rec;
    var bound := NotFullMax(g) + P + L;
    SmallStep(s.card, Sync(ram.slot, tail), bound);
    if a.ops == [] {
      assert done == [Sync(ram.slot, tail)] && done[1..] == [];
      assert Durable(done) == tail + [] == tail;
      assert [] + tail == tail;
      assert Content(s.card, ram.slot) + [] == Content(s.card, ram.slot);
    } else {
      var c := Step(s.card, Sync(ram.slot, tail));
      assert done == [Sync(ram.slot, tail), Sync(ram.slot, [])];
      assert done[1..] == [Sync(ram.slot, [])] && done[1..][1..] == [] && a.ops[1..] == [];
      SmallStep(c, Sync(ram.slot, []), bound);
      assert Durable(done[1..]) == [] + [];
      assert Durable(done) == tail + [] == tail;
      assert Durable(a.ops) == tail + [] == tail;
    }
  }

  lemma BeginSmall(g: Geometry, s: Sys, chunks: seq<Bytes>, P: nat, L: nat)
    requires Settled(g, s, P) && SmallFiles(s.card, NotFullMax(g) + P + L) && |Joined(chunks)| <= P
    ensures Along(SmallWithin(NotFullMax(g) + P + L), s.card, Plan(g, s, CallBegin(chunks)).ops)
    ensures Settled(g, Next(g, s, Done(CallBegin(chunks))), P)
  {
    var small := SmallWithin(NotFullMax(g) + P + L);
    var close := CloseOps(s.ram);
    CloseSmall(g, s, P, L);
    var c := Apply(s.card, close);
    SmallAtTheEnd(s.card, close, NotFullMax(g) + P + L);
    ResumeSmall(g, c, chunks, P, L);
    AlongConcat(small, s.card, close, ResumeOps(g, c, chunks));
    ApplyConcat(s.card, close, ResumeOps(g, c, chunks));
  }

  lemma SmallAtTheEnd(c: Card, ops: seq<Op>, bound: nat)
    requires Along(SmallWithin(bound), c, ops)
    ensures SmallFiles(Apply(c, ops), bound)
  {
    AlongPrefix(SmallWithin(bound), c, ops, |ops|);
    assert ops[..|ops|] == ops;
  }

  lemma WriteSmall(g: Geometry, s: Sys, rec: Bytes, chunks: seq<Bytes>, P: nat, L: nat)
    requires Settled(g, s, P) && SmallFiles(s.card, NotFullMax(g) + P + L)
    requires |rec| <= L && |Joined(chunks)| <= P && s.ram.Some? && rec != []
    ensures Along(SmallWithin(NotFullMax(g) + P + L), s.card, Plan(g, s, CallWrite(rec, chunks)).ops)
    ensures Settled(g, Next(g, s, Done(CallWrite(rec, chunks))), P)
  {
    var ram := s.ram.value;
    AppendSmall(g, s, rec, P, L);
    if |Content(s.card, ram.slot)| + |ram.pending| + |rec| >= g.size {
      RotationSmall(g, s, rec, chunks, P, L);
      RotationSettles(g, s, rec, chunks, P);
    } else {
      var a := Append(ram, rec);
      AppendKeepsTotal(s.card, ram, rec);
      assert Plan(g, s, CallWrite(rec, chunks)) == a;
    }
  }

  /** Synced or not, the file and its tail grow by the record. */
  lemma AppendKeepsTotal(c: Card, ram: Ram, rec: Bytes)
    requires Present(c, ram.slot)
    ensures var a := Append(ram, rec);
      var d := Apply(c, a.ops);
      && Present(d, ram.slot) && |d.slots| == |c.slots|
      && |Content(d, ram.slot)| + |a.ram.value.pending| == |Content(c, ram.slot)| + |ram.pending| + |rec|
  {
    var a := Append(ram, rec);
    if a.ops != [] {
      assert a.ops[1..] == [];
      assert Apply(c, a.ops) == Step(c, a.ops[0]);
    }
  }

  lemma AppendApplied(c: Card, ram: Ram, rec: Bytes)
    requires Present(c, ram.slot)
    ensures var a := Append(ram, rec);
      Apply(c, a.ops + CloseOps(a.ram)).slots == c.slots[ram.slot := Some(Content(c, ram.slot) + (ram.pending + rec))]
  {
    var a := Append(ram, rec);
    var done := a.ops + CloseOps(a.ram);
    var tail := ram.pending + rec;
    if a.ops == [] {
      assert done == [Sync(ram.slot, tail)] && done[1..] == [];
    } else {
      assert done == [Sync(ram.slot, tail), Sync(ram.slot, [])];
      assert done[1..] == [Sync(ram.slot, [])] && done[1..][1..] == [];
      var d := Step(c, Sync(ram.slot, tail));
      assert Content(d, ram.slot) + [] == Content(d, ram.slot);
      assert Apply(d, done[1..]) == Step(d, Sync(ram.slot, []));
    }
  }

  /** A write that rotates: the old file takes the tail, the next one starts with the preamble. */
  lemma RotationEffect(g: Geometry, s: Sys, rec: Bytes, chunks: seq<Bytes>)
    requires |s.card.slots| == g.n && s.ram.Some? && Present(s.card, s.ram.value.slot) && rec != []
    requires |Content(s.card, s.ram.value.slot)| + |s.ram.value.pending| + |rec| >= g.size
    ensures var ram := s.ram.value;
      var to := Place(g, ram.slot, 1);
      var t := Next(g, s, Done(CallWrite(rec, chunks)));
      && t.ram == Some(Ram(to, [], 0))
      && t.card.slots == s.card.slots
           [ram.slot := Some(Content(s.card, ram.slot) + (ram.pending + rec))][to := Some(Joined(chunks))]
  {
    var ram := s.ram.value;
    var a := Append(ram, rec);
    var done := a.ops + CloseOps(a.ram);
    var c := Apply(s.card, done);
    AppendApplied(s.card, ram, rec);
    NextSlotEffect(g, c, ram.slot, chunks);
    ApplyConcat(s.card, done, NextSlotOps(g, c, ram.slot, chunks));
  }

  lemma RotationSmall(g: Geometry, s: Sys, rec: Bytes, chunks: seq<Bytes>, P: nat, L: nat)
    requires Settled(g, s, P) && SmallFiles(s.card, NotFullMax(g) + P + L)
    requires |rec| <= L && |Joined(chunks)| <= P && s.ram.Some? && rec != []
    requires |Content(s.card, s.ram.value.slot)| + |s.ram.value.pending| + |rec| >= g.size
    ensures Along(SmallWithin(NotFullMax(g) + P + L), s.card, Plan(g, s, CallWrite(rec, chunks)).ops)
  {
    var a := Append(s.ram.value, rec);
    AppendSmall(g, s, rec, P, L);
    NextSlotFollows(g, s.card, a.ops + CloseOps(a.ram), s.ram.value.slot, chunks, NotFullMax(g) + P + L);
  }

  lemma NextSlotFollows(g: Geometry, c: Card, done: seq<Op>, from: nat, chunks: seq<Bytes>, bound: nat)
    requires |c.slots| == g.n && Along(SmallWithin(bound), c, done) && |Joined(chunks)| <= bound
    ensures Along(SmallWithin(bound), c, done + NextSlotOps(g, Apply(c, done), from, chunks))
  {
    var d := Apply(c, done);
    SmallAtTheEnd(c, done, bound);
    SameSlots(c, done);
    NextSlotSmall(g, d, from, chunks, bound);
    AlongConcat(SmallWithin(bound), c, done, NextSlotOps(g, d, from, chunks));
  }

  lemma {:induction false} SameSlots(c: Card, ops: seq<Op>)
    ensures |Apply(c, ops).slots| == |c.slots|
    decreases |ops|
  {
    if ops != [] { SameSlots(Step(c, ops[0]), ops[1..]); }
  }

  lemma RotationSettles(g: Geometry, s: Sys, rec: Bytes, chunks: seq<Bytes>, P: nat)
    requires Settled(g, s, P) && |Joined(chunks)| <= P && s.ram.Some? && rec != []
    requires |Content(s.card, s.ram.value.slot)| + |s.ram.value.pending| + |rec| >= g.size
    ensures Settled(g, Next(g, s, Done(CallWrite(rec, chunks))), P)
  {
    var to := Place(g, s.ram.value.slot, 1);
    PlaceIs(g, s.ram.value.slot, 1);
    RotationEffect(g, s, rec, chunks);
    FreshIsSettled(g, Next(g, s, Done(CallWrite(rec, chunks))), to, Joined(chunks), P);
  }

  lemma FreshIsSettled(g: Geometry, t: Sys, slot: nat, head: Bytes, P: nat)
    requires |t.card.slots| == g.n && slot < g.n && t.ram == Some(Ram(slot, [], 0))
    requires t.card.slots[slot] == Some(head) && |head| <= P
    ensures Settled(g, t, P)
  {
  }

  lemma PlanSmall(g: Geometry, s: Sys, call: Call, P: nat, L: nat)
    requires Settled(g, s, P) && SmallFiles(s.card, NotFullMax(g) + P + L) && CallWithin(call, P, L)
    ensures Along(SmallWithin(NotFullMax(g) + P + L), s.card, Plan(g, s, call).ops)
    ensures Settled(g, Next(g, s, Done(call)), P)
  {
    match call {
      case CallEnd => CloseSmall(g, s, P, L);
      case CallBegin(chunks) => BeginSmall(g, s, chunks, P, L);
      case CallWrite(rec, chunks) =>
        if s.ram.Some? && rec != [] {
          WriteSmall(g, s, rec, chunks, P, L);
        }
    }
  }

  lemma EventSmall(g: Geometry, s: Sys, e: Event, P: nat, L: nat)
    requires Settled(g, s, P) && SmallFiles(s.card, NotFullMax(g) + P + L) && EventWithin(e, P, L)
    ensures Along(SmallWithin(NotFullMax(g) + P + L), s.card, EventOps(g, s, e))
    ensures Settled(g, Next(g, s, e), P) && SmallFiles(Next(g, s, e).card, NotFullMax(g) + P + L)
  {
    var small := SmallWithin(NotFullMax(g) + P + L);
    var ops := EventOps(g, s, e);
    match e {
      case Done(call) => PlanSmall(g, s, call, P, L);
      case Cut(call, after) =>
        PlanSmall(g, s, call, P, L);
        if after < |Plan(g, s, call).ops| {
          AlongPrefix(small, s.card, Plan(g, s, call).ops, after);
        }
      case IndexDamaged(i) =>
        SmallStep(s.card, ops[0], NotFullMax(g) + P + L);
        assert ops[1..] == [];
        assert Apply(s.card, ops) == Step(s.card, Damage(i));
    }
    AlongPrefix(small, s.card, ops, |ops|);
    assert ops[..|ops|] == ops;
  }

  /**
   With a preamble of at most P bytes and records of at most L, no file ever reaches
   size + P + L bytes, on any run with any cuts and any number of reopenings, and between
   calls the unsynced tail is what the sync counter says, under 4096 bytes.
  */
  lemma {:induction false} CardUseIsBounded(g: Geometry, s: Sys, events: seq<Event>, P: nat, L: nat)
    requires Settled(g, s, P) && SmallFiles(s.card, NotFullMax(g) + P + L)
    requires forall i | 0 <= i < |events| :: EventWithin(events[i], P, L)
    ensures Along(SmallWithin(NotFullMax(g) + P + L), s.card, RunOps(g, s, events))
    ensures Settled(g, RunEnd(g, s, events), P)
    decreases |events|
  {
    if events != [] {
      var next := Next(g, s, events[0]);
      EventSmall(g, s, events[0], P, L);
      CardUseIsBounded(g, next, events[1..], P, L);
      AlongConcat(SmallWithin(NotFullMax(g) + P + L), s.card, EventOps(g, s, events[0]), RunOps(g, next, events[1..]));
    }
  }

  /** The same bound at every moment: after any number of card operations of the run. */
  lemma EveryFileIsSmall(g: Geometry, s: Sys, events: seq<Event>, P: nat, L: nat, k: nat, slot: nat)
    requires Settled(g, s, P) && SmallFiles(s.card, NotFullMax(g) + P + L)
    requires forall i | 0 <= i < |events| :: EventWithin(events[i], P, L)
    requires k <= |RunOps(g, s, events)|
    ensures |Content(Apply(s.card, RunOps(g, s, events)[..k]), slot)| <= NotFullMax(g) + P + L
  {
    CardUseIsBounded(g, s, events, P, L);
    AlongPrefix(SmallWithin(NotFullMax(g) + P + L), s.card, RunOps(g, s, events), k);
  }

  lemma AppendDurable(ram: Ram, rec: Bytes)
    ensures var a := Append(ram, rec);
      Durable(a.ops) <= ram.pending + rec && Durable(a.ops + CloseOps(a.ram)) == ram.pending + rec
  {
    var a := Append(ram, rec);
    DurableConcat(a.ops, CloseOps(a.ram));
    assert CloseOps(a.ram)[1..] == [];
    if a.ops != [] {
      assert a.ops[1..] == [];
    }
  }

  lemma DurablePrefix(ops: seq<Op>, k: nat)
    ensures Durable(if k < |ops| then ops[..k] else ops) <= Durable(ops)
  {
    if k < |ops| {
      assert ops == ops[..k] + ops[k..];
      DurableConcat(ops[..k], ops[k..]);
    }
  }

  /**
   A power cut during a write loses a contiguous stretch at the end of what had been
   accepted: fewer than 4096 bytes and one record, however long the run before it.
  */
  lemma CutCostsABoundedTail(g: Geometry, s: Sys, rec: Bytes, chunks: seq<Bytes>, after: nat, P: nat)
    requires Settled(g, s, P) && s.ram.Some? && rec != []
    ensures var accepted := s.ram.value.pending + rec;
      var durable := Durable(EventOps(g, s, Cut(CallWrite(rec, chunks), after)));
      (durable <= accepted || accepted <= durable) && |accepted| < FLUSH_INTERVAL_BYTES + |rec|
  {
    var ops := Plan(g, s, CallWrite(rec, chunks)).ops;
    var accepted := s.ram.value.pending + rec;
    var a := Append(s.ram.value, rec);
    var cut := EventOps(g, s, Cut(CallWrite(rec, chunks), after));
    AppendDurable(s.ram.value, rec);
    if |Content(s.card, s.ram.value.slot)| + |s.ram.value.pending| + |rec| < g.size {
      DurablePrefix(ops, after);
    } else {
      var done := a.ops + CloseOps(a.ram);
      var rest := ops[|done|..];
      assert ops == done + rest;
      if after <= |done| {
        assert cut == done[..after];
        DurablePrefix(done, after);
      } else {
        assert cut == done + cut[|done|..];
        DurableConcat(done, cut[|done|..]);
      }
    }
  }
}
