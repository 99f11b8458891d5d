/**
 No file of the ring ever holds bytes from two passes.

 `Legal` says which card operation may come next when `cur` is the slot the ring is in;
 every prefix of every run is a legal sequence, and legality implies the safety property.
*/
module RingSafety {
  import opened Cards
  import opened RingSpec

  // -------------------------------------------------------------------------
  // The shape of the ring
  // -------------------------------------------------------------------------

  /** Every slot before `cur` is full, every slot after it absent. */
  predicate FirstLap(g: Geometry, c: Card, cur: nat) {
    (forall s | 0 <= s < cur && s < |c.slots| :: Full(g, c, s)) &&
    (forall s | cur < s < |c.slots| :: Absent(c, s))
  }

  predicate OthersFull(g: Geometry, c: Card, cur: nat) {
    forall s | 0 <= s < |c.slots| && s != cur :: Full(g, c, s)
  }

  predicate ShapeAt(g: Geometry, c: Card, cur: nat) {
    |c.slots| == g.n && cur < g.n && (FirstLap(g, c, cur) || OthersFull(g, c, cur))
  }

  /** The index, read as `begin()` reads it, names the ring's slot or a full one. */
  predicate IndexOk(g: Geometry, c: Card, cur: nat) {
    var e := ReadIndex(g, c);
    e == cur || Full(g, c, e)
  }

  /** With the index intact, it names the ring's slot, or the full slot just before it. */
  predicate AtHead(g: Geometry, c: Card, cur: nat)
  {
    var e := ReadIndex(g, c);
    cur == e || (cur == Place(g, e, 1) && Full(g, c, e) && Absent(c, cur))
  }

  /** `intact` says that the index has never been damaged. */
  predicate Sound(g: Geometry, intact: bool, c: Card, cur: nat) {
    ShapeAt(g, c, cur) && IndexOk(g, c, cur) && (intact ==> AtHead(g, c, cur))
  }

  /** A card from which the ring may start: any blank one, and any a run can leave. */
  ghost predicate RingCard(g: Geometry, c: Card) {
    exists cur: nat :: Sound(g, false, c, cur)
  }

  function BlankCard(g: Geometry): Card {
    Card(seq(g.n, _ => None), None)
  }

  lemma BlankIsRingCard(g: Geometry)
    ensures RingCard(g, BlankCard(g))
  {
    assert Sound(g, false, BlankCard(g), 0);
  }

  // -------------------------------------------------------------------------
  // Legal sequences of operations
  // -------------------------------------------------------------------------

  predicate Legal(g: Geometry, intact: bool, c: Card, cur: nat, op: Op)
  {
    var e := ReadIndex(g, c);
    match op
    case Open(s) => s == cur && !Full(g, c, s) && (intact ==> s == e)
    case Sync(s, _) => s == cur && Present(c, s) && (intact ==> s == e)
    case Remove(s) => s < g.n && AllFull(g, c) && (intact ==> s == Place(g, e, 1))
    case SetIndex(s) =>
      (s == cur || (Full(g, c, cur) && Absent(c, s) && ShapeAt(g, c, s))) &&
      (intact ==> s == e || (s == Place(g, e, 1) && Full(g, c, e) && Absent(c, s)))
    case Damage(i) => !intact && DamageAdmitted(g, c, i)
  }

  /** Removing a slot, and naming one in the index, are what move the ring on. */
  function Moved(cur: nat, op: Op): nat {
    match op
    case Remove(s) => s
    case SetIndex(s) => s
    case _ => cur
  }

  predicate LegalSeq(g: Geometry, intact: bool, c: Card, cur: nat, ops: seq<Op>)
    decreases |ops|
  {
    ops == [] ||
    (Legal(g, intact, c, cur, ops[0]) && LegalSeq(g, intact, Step(c, ops[0]), Moved(cur, ops[0]), ops[1..]))
  }

  function MovedBy(cur: nat, ops: seq<Op>): nat
    decreases |ops|
  {
    if ops == [] then cur else MovedBy(Moved(cur, ops[0]), ops[1..])
  }

  lemma {:induction false} LegalConcat(g: Geometry, intact: bool, c: Card, cur: nat, a: seq<Op>, b: seq<Op>)
    requires LegalSeq(g, intact, c, cur, a)
    requires LegalSeq(g, intact, Apply(c, a), MovedBy(cur, a), b)
    ensures LegalSeq(g, intact, c, cur, a + b)
    ensures MovedBy(cur, a + b) == MovedBy(MovedBy(cur, a), b)
    decreases |a|
  {
    if a == [] {
      assert a + b == b;
    } else {
      assert (a + b)[0] == a[0] && (a + b)[1..] == a[1..] + b;
      LegalConcat(g, intact, Step(c, a[0]), Moved(cur, a[0]), a[1..], b);
    }
  }

  lemma {:induction false} LegalPrefix(g: Geometry, intact: bool, c: Card, cur: nat, ops: seq<Op>, k: nat)
    requires LegalSeq(g, intact, c, cur, ops) && k <= |ops|
    ensures LegalSeq(g, intact, c, cur, ops[..k])
    decreases k
  {
    if k > 0 {
      assert ops[..k][0] == ops[0] && ops[..k][1..] == ops[1..][..k - 1];
      LegalPrefix(g, intact, Step(c, ops[0]), Moved(cur, ops[0]), ops[1..], k - 1);
    }
  }

  lemma SoundStep(g: Geometry, intact: bool, c: Card, cur: nat, op: Op)
    requires Sound(g, intact, c, cur) && Legal(g, intact, c, cur, op)
    ensures Sound(g, intact, Step(c, op), Moved(cur, op))
  {
    var r := Step(c, op);
    forall s | 0 <= s < g.n && Full(g, c, s) && op != Remove(s)
      ensures Full(g, r, s)
    {
    }
    forall s | 0 <= s < g.n && Absent(c, s) && s != Moved(cur, op)
      ensures Absent(r, s)
    {
    }
    if op.Remove? {
      assert OthersFull(g, r, op.slot);
    } else if FirstLap(g, c, Moved(cur, op)) {
      assert FirstLap(g, r, Moved(cur, op));
    } else {
      assert OthersFull(g, r, Moved(cur, op));
    }
  }

  lemma {:induction false} SoundSeq(g: Geometry, intact: bool, c: Card, cur: nat, ops: seq<Op>)
    requires Sound(g, intact, c, cur) && LegalSeq(g, intact, c, cur, ops)
    ensures Sound(g, intact, Apply(c, ops), MovedBy(cur, ops))
    decreases |ops|
  {
    if ops != [] {
      SoundStep(g, intact, c, cur, ops[0]);
      SoundSeq(g, intact, Step(c, ops[0]), Moved(cur, ops[0]), ops[1..]);
    }
  }

  // -------------------------------------------------------------------------
  // What begin() finds
  // -------------------------------------------------------------------------

  lemma PlaceIs(g: Geometry, from: nat, k: nat)
    requires from < g.n && k <= g.n
    ensures Place(g, from, k) == if from + k < g.n then from + k else from + k - g.n
  {
  }

  /** The walk stops at the first non-full slot it meets. */
  lemma {:induction false} WalkTo(g: Geometry, c: Card, from: nat, step: nat, k: nat)
    requires step <= k < g.n && !Full(g, c, Place(g, from, k))
    requires forall j | step <= j < k :: Full(g, c, Place(g, from, j))
    ensures FirstNotFull(g, c, from, step) == Some(Place(g, from, k))
    decreases k - step
  {
    if step < k {
      WalkTo(g, c, from, step + 1, k);
    }
  }

  lemma {:induction false} WalkNone(g: Geometry, c: Card, from: nat, step: nat)
    requires from < g.n && |c.slots| == g.n && AllFull(g, c)
    ensures FirstNotFull(g, c, from, step) == None
    decreases g.n - step
  {
    if step < g.n {
      WalkNone(g, c, from, step + 1);
    }
  }

  /** Where the ring resumes: its own slot, or the absent one after it; none if all are full. */
  function ResumeTarget(g: Geometry, c: Card, cur: nat): Option<nat> {
    if !Full(g, c, cur) then Some(cur)
    else if cur + 1 < g.n && Absent(c, cur + 1) then Some(cur + 1)
    else None
  }

  lemma TargetIsOnlyCandidate(g: Geometry, c: Card, cur: nat)
    requires ShapeAt(g, c, cur)
    ensures ResumeTarget(g, c, cur).None? <==> AllFull(g, c)
    ensures ResumeTarget(g, c, cur).Some? ==>
      var t := ResumeTarget(g, c, cur).value;
      t < g.n && !Full(g, c, t) && ShapeAt(g, c, t) && (t == cur || (Full(g, c, cur) && t == cur + 1 && Absent(c, t)))
  {
    if Full(g, c, cur) {
      if cur + 1 < g.n {
        assert FirstLap(g, c, cur) ==> Absent(c, cur + 1);
        assert OthersFull(g, c, cur) ==> Full(g, c, cur + 1);
        if Absent(c, cur + 1) {
          assert FirstLap(g, c, cur + 1);
        }
      }
    }
  }

  /**
   Where `begin()` resumes does not depend on what the index says, as long as the index
   names the ring's slot or a full one.
  */
  lemma ResumePoint(g: Geometry, intact: bool, c: Card, cur: nat)
    requires Sound(g, intact, c, cur)
    ensures FirstNotFull(g, c, ReadIndex(g, c), 0) == ResumeTarget(g, c, cur)
  {
    var e := ReadIndex(g, c);
    TargetIsOnlyCandidate(g, c, cur);
    match ResumeTarget(g, c, cur)
    case None => WalkNone(g, c, e, 0);
    case Some(t) =>
      var k := if t >= e then t - e else t + g.n - e;
      PlaceIs(g, e, k);
      if FirstLap(g, c, cur) {
        assert e > cur ==> Absent(c, e);
      } else {
        assert t == cur || Full(g, c, t);
      }
      forall j | 0 <= j < k ensures Full(g, c, Place(g, e, j)) {
        PlaceIs(g, e, j);
      }
      WalkTo(g, c, e, 0, k);
  }

  /** The walk as a whole: it passes full slots only, and stops at one that is not. */
  lemma {:induction false} WalkFinds(g: Geometry, c: Card, from: nat, step: nat) returns (k: nat)
    requires step <= g.n
    ensures step <= k <= g.n && forall j | step <= j < k :: Full(g, c, Place(g, from, j))
    ensures FirstNotFull(g, c, from, step) == if k < g.n then Some(Place(g, from, k)) else None
    ensures k < g.n ==> !Full(g, c, Place(g, from, k))
    decreases g.n - step
  {
    if step < g.n && Full(g, c, Place(g, from, step)) {
      k := WalkFinds(g, c, from, step + 1);
    } else {
      k := step;
    }
  }

  /**
   On any card a run can leave, losing the index or having it name a full slot leads
   `begin()` to the slot the intact index would have led to, whenever some slot is not full.
  */
  lemma DamagedIndexResumesTheSame(g: Geometry, c: Card, index: Option<int>)
    requires RingCard(g, c) && DamageAdmitted(g, c, index) && !AllFull(g, c)
    ensures ResumeSlot(g, Step(c, Damage(index))) == ResumeSlot(g, c)
    ensures !Full(g, c, ResumeSlot(g, c))
  {
    var cur: nat :| Sound(g, false, c, cur);
    SoundStep(g, false, c, cur, Damage(index));
    var d := Step(c, Damage(index));
    assert forall s: nat :: Full(g, d, s) == Full(g, c, s);
    ResumePoint(g, false, c, cur);
    ResumePoint(g, false, d, cur);
    TargetIsOnlyCandidate(g, c, cur);
  }

  // -------------------------------------------------------------------------
  // Every call is legal
  // -------------------------------------------------------------------------

  lemma {:induction false} PreambleLegal(g: Geometry, intact: bool, c: Card, cur: nat, chunks: seq<Bytes>)
    requires Present(c, cur) && (intact ==> cur == ReadIndex(g, c))
    ensures LegalSeq(g, intact, c, cur, PreambleOps(cur, chunks)) && MovedBy(cur, PreambleOps(cur, chunks)) == cur
    ensures Present(Apply(c, PreambleOps(cur, chunks)), cur)
    decreases |chunks|
  {
    if chunks != [] {
      var ops := PreambleOps(cur, chunks);
      assert ops[1..] == PreambleOps(cur, chunks[1..]);
      PreambleLegal(g, intact, Step(c, ops[0]), cur, chunks[1..]);
    }
  }

  /** Opening the ring's slot and writing the preamble into it. */
  lemma OpenLegal(g: Geometry, intact: bool, c: Card, cur: nat, chunks: seq<Bytes>)
    requires cur < |c.slots| && !Full(g, c, cur) && (intact ==> cur == ReadIndex(g, c))
    ensures var ops := [Open(cur)] + PreambleOps(cur, chunks);
      LegalSeq(g, intact, c, cur, ops) && MovedBy(cur, ops) == cur && Present(Apply(c, ops), cur)
  {
    var ops := [Open(cur)] + PreambleOps(cur, chunks);
    assert ops[1..] == PreambleOps(cur, chunks);
    PreambleLegal(g, intact, Step(c, Open(cur)), cur, chunks);
  }

  /** Naming a slot in the index, then opening it. */
  lemma MoveLegal(g: Geometry, intact: bool, c: Card, cur: nat, slot: nat, chunks: seq<Bytes>)
    requires slot < g.n && |c.slots| == g.n && !Full(g, c, slot) && Legal(g, intact, c, cur, SetIndex(slot))
    ensures var ops := [SetIndex(slot), Open(slot)] + PreambleOps(slot, chunks);
      LegalSeq(g, intact, c, cur, ops) && MovedBy(cur, ops) == slot && Present(Apply(c, ops), slot)
  {
    var ops := [SetIndex(slot), Open(slot)] + PreambleOps(slot, chunks);
    assert ops[1..] == [Open(slot)] + PreambleOps(slot, chunks);
    OpenLegal(g, intact, Step(c, SetIndex(slot)), slot, chunks);
  }

  /** A rotation from a finished file, or from any slot when every file is finished. */
  lemma NextSlotLegal(g: Geometry, intact: bool, c: Card, cur: nat, from: nat, chunks: seq<Bytes>)
    requires Sound(g, intact, c, cur) && from < g.n
    requires Full(g, c, cur) && (from == cur || AllFull(g, c))
    requires intact ==> from == ReadIndex(g, c)
    ensures var ops := NextSlotOps(g, c, from, chunks);
      LegalSeq(g, intact, c, cur, ops) && MovedBy(cur, ops) == Place(g, from, 1) &&
      Present(Apply(c, ops), Place(g, from, 1))
  {
    var next := Place(g, from, 1);
    PlaceIs(g, from, 1);
    var ops := NextSlotOps(g, c, from, chunks);
    if Present(c, next) {
      if FirstLap(g, c, cur) {
        assert cur + 1 < g.n ==> Absent(c, cur + 1);
      }
      assert AllFull(g, c);
      assert ops[1..] == [SetIndex(next), Open(next)] + PreambleOps(next, chunks);
      MoveLegal(g, intact, Step(c, Remove(next)), next, next, chunks);
    } else {
      assert from == cur && !OthersFull(g, c, cur) by { assert !Full(g, c, next); }
      assert next == cur + 1;
      assert FirstLap(g, c, next);
      assert ops == [SetIndex(next), Open(next)] + PreambleOps(next, chunks);
      MoveLegal(g, intact, c, cur, next, chunks);
    }
  }

  /** When the ring resumes elsewhere than the index says, rewriting the index is legal. */
  lemma ResumeMoveLegal(g: Geometry, intact: bool, c: Card, cur: nat)
    requires Sound(g, intact, c, cur) && ResumeTarget(g, c, cur).Some?
    requires ResumeTarget(g, c, cur).value != ReadIndex(g, c)
    ensures Legal(g, intact, c, cur, SetIndex(ResumeTarget(g, c, cur).value))
  {
    TargetIsOnlyCandidate(g, c, cur);
    PlaceIs(g, ReadIndex(g, c), 1);
  }

  lemma ResumeLegal(g: Geometry, intact: bool, c: Card, cur: nat, chunks: seq<Bytes>)
    requires Sound(g, intact, c, cur)
    ensures var ops := ResumeOps(g, c, chunks);
      LegalSeq(g, intact, c, cur, ops) && MovedBy(cur, ops) == ResumeSlot(g, c) &&
      Present(Apply(c, ops), ResumeSlot(g, c))
  {
    var e := ReadIndex(g, c);
    ResumePoint(g, intact, c, cur);
    TargetIsOnlyCandidate(g, c, cur);
    match FirstNotFull(g, c, e, 0)
    case None => NextSlotLegal(g, intact, c, cur, e, chunks);
    case Some(slot) =>
      if slot == e {
        assert ResumeOps(g, c, chunks) == [Open(slot)] + PreambleOps(slot, chunks);
        OpenLegal(g, intact, c, slot, chunks);
      } else {
        assert ResumeOps(g, c, chunks) == [SetIndex(slot), Open(slot)] + PreambleOps(slot, chunks);
        ResumeMoveLegal(g, intact, c, cur);
        MoveLegal(g, intact, c, cur, slot, chunks);
      }
  }

  /** A system between calls: a sound card, and a handle on the ring's slot if any. */
  predicate Idle(g: Geometry, intact: bool, s: Sys, cur: nat) {
    && Sound(g, intact, s.card, cur)
    && (s.ram.Some? ==> s.ram.value.slot == cur && Present(s.card, cur))
    && (s.ram.Some? && intact ==> cur == ReadIndex(g, s.card))
  }

  lemma CloseLegal(g: Geometry, intact: bool, s: Sys, cur: nat)
    requires Idle(g, intact, s, cur)
    ensures LegalSeq(g, intact, s.card, cur, CloseOps(s.ram)) && MovedBy(cur, CloseOps(s.ram)) == cur
    ensures Sound(g, intact, Apply(s.card, CloseOps(s.ram)), cur)
  {
    var ops := CloseOps(s.ram);
    if s.ram.Some? {
      assert ops[1..] == [];
    }
    SoundSeq(g, intact, s.card, cur, ops);
  }

  lemma PlanLegal(g: Geometry, intact: bool, s: Sys, cur: nat, call: Call) returns (next: nat)
    requires Idle(g, intact, s, cur)
    ensures LegalSeq(g, intact, s.card, cur, Plan(g, s, call).ops)
    ensures MovedBy(cur, Plan(g, s, call).ops) == next
    ensures Idle(g, intact, Next(g, s, Done(call)), next)
  {
    var plan := Plan(g, s, call);
    next := MovedBy(cur, plan.ops);
    match call {
      case CallBegin(chunks) =>
        var close := CloseOps(s.ram);
        CloseLegal(g, intact, s, cur);
        var c := Apply(s.card, close);
        ResumeLegal(g, intact, c, cur, chunks);
        LegalConcat(g, intact, s.card, cur, close, ResumeOps(g, c, chunks));
        ApplyConcat(s.card, close, ResumeOps(g, c, chunks));
      case CallEnd => CloseLegal(g, intact, s, cur);
      case CallWrite(rec, chunks) =>
        if s.ram.Some? && rec != [] {
          var appended := Append(s.ram.value, rec);
          AppendLegal(g, intact, s, cur, rec);
          if |Content(s.card, cur)| + |s.ram.value.pending| + |rec| >= g.size {
            var done := appended.ops + CloseOps(appended.ram);
            var c := Apply(s.card, done);
            NextSlotLegal(g, intact, c, cur, cur, chunks);
            LegalConcat(g, intact, s.card, cur, done, NextSlotOps(g, c, cur, chunks));
            ApplyConcat(s.card, done, NextSlotOps(g, c, cur, chunks));
          }
        }
    }
    SoundSeq(g, intact, s.card, cur, plan.ops);
  }

  /** An append, and the close that may follow it, put exactly the tail into the file. */
  lemma AppendLegal(g: Geometry, intact: bool, s: Sys, cur: nat, rec: Bytes)
    requires Idle(g, intact, s, cur) && s.ram.Some?
    ensures var a := Append(s.ram.value, rec);
      var done := a.ops + CloseOps(a.ram);
      LegalSeq(g, intact, s.card, cur, a.ops) && MovedBy(cur, a.ops) == cur &&
      Present(Apply(s.card, a.ops), cur) &&
      LegalSeq(g, intact, s.card, cur, done) && MovedBy(cur, done) == cur &&
      Sound(g, intact, Apply(s.card, done), cur) &&
      Content(Apply(s.card, done), cur) == Content(s.card, cur) + s.ram.value.pending + rec
  {
    var a := Append(s.ram.value, rec);
    var done := a.ops + CloseOps(a.ram);
    var tail := s.ram.value.pending + rec;
    if a.ops == [] {
      assert done == [Sync(cur, tail)] && done[1..] == [];
      assert Apply(s.card, done) == Step(s.card, Sync(cur, tail));
    } else {
      assert done == [Sync(cur, tail), Sync(cur, [])] && done[1..] == [Sync(cur, [])] && done[1..][1..] == [];
      assert a.ops == [Sync(cur, tail)] && a.ops[1..] == [];
      var c := Step(s.card, Sync(cur, tail));
      assert Content(c, cur) == Content(s.card, cur) + tail;
      assert Apply(c, done[1..]) == Step(c, Sync(cur, []));
      assert Content(c, cur) + [] == Content(c, cur);
    }
    assert Content(s.card, cur) + tail == Content(s.card, cur) + s.ram.value.pending + rec;
    SoundSeq(g, intact, s.card, cur, done);
  }

  lemma EventLegal(g: Geometry, intact: bool, s: Sys, cur: nat, e: Event) returns (next: nat)
    requires Idle(g, intact, s, cur)
    requires e.IndexDamaged? ==> !intact && DamageAdmitted(g, s.card, e.index)
    ensures LegalSeq(g, intact, s.card, cur, EventOps(g, s, e)) && MovedBy(cur, EventOps(g, s, e)) == next
    ensures Idle(g, intact, Next(g, s, e), next)
  {
    match e {
      case Done(call) =>
        next := PlanLegal(g, intact, s, cur, call);
      case Cut(call, after) =>
        var n := PlanLegal(g, intact, s, cur, call);
        next := CutLegal(g, intact, s, cur, Plan(g, s, call).ops, after);
      case IndexDamaged(i) =>
        assert EventOps(g, s, e)[1..] == [];
        assert Apply(s.card, EventOps(g, s, e)) == Step(s.card, Damage(i));
        next := cur;
        SoundSeq(g, intact, s.card, cur, EventOps(g, s, e));
    }
  }

  lemma CutLegal(g: Geometry, intact: bool, s: Sys, cur: nat, ops: seq<Op>, after: nat) returns (next: nat)
    requires Sound(g, intact, s.card, cur) && LegalSeq(g, intact, s.card, cur, ops)
    ensures var done := if after < |ops| then ops[..after] else ops;
      LegalSeq(g, intact, s.card, cur, done) && MovedBy(cur, done) == next &&
      Sound(g, intact, Apply(s.card, done), next)
  {
    var done := if after < |ops| then ops[..after] else ops;
    if after < |ops| {
      LegalPrefix(g, intact, s.card, cur, ops, after);
    }
    next := MovedBy(cur, done);
    SoundSeq(g, intact, s.card, cur, done);
  }

  /** Every run is a legal sequence of operations, whatever cuts and damage it meets. */
  lemma {:induction false} RunLegal(g: Geometry, intact: bool, s: Sys, cur: nat, events: seq<Event>) returns (next: nat)
    requires Idle(g, intact, s, cur) && RunAdmitted(g, s, events)
    requires intact ==> NoDamage(events)
    ensures LegalSeq(g, intact, s.card, cur, RunOps(g, s, events))
    ensures Idle(g, intact, RunEnd(g, s, events), next)
    decreases |events|
  {
    next := cur;
    if events != [] {
      var mid := EventLegal(g, intact, s, cur, events[0]);
      var after := Next(g, s, events[0]);
      next := RunLegal(g, intact, after, mid, events[1..]);
      LegalConcat(g, intact, s.card, cur, EventOps(g, s, events[0]), RunOps(g, after, events[1..]));
    }
  }

  /** After every operation of every run, the card is one the ring can start from. */
  lemma RunStaysRing(g: Geometry, card: Card, events: seq<Event>, k: nat)
    requires RingCard(g, card) && RunAdmitted(g, Sys(card, None), events)
    requires k <= |RunOps(g, Sys(card, None), events)|
    ensures RingCard(g, Apply(card, RunOps(g, Sys(card, None), events)[..k]))
  {
    var cur: nat :| Sound(g, false, card, cur);
    var ops := RunOps(g, Sys(card, None), events);
    var next := RunLegal(g, false, Sys(card, None), cur, events);
    LegalPrefix(g, false, card, cur, ops, k);
    SoundSeq(g, false, card, cur, ops[..k]);
  }

  // -------------------------------------------------------------------------
  // The safety property, on the operations themselves
  // -------------------------------------------------------------------------

  predicate Puts(op: Op, s: nat) {
    (op.Open? || op.Sync?) && op.slot == s
  }

  predicate RemovedBetween(ops: seq<Op>, s: nat, from: int, to: int) {
    exists r :: from < r < to && 0 <= r < |ops| && ops[r] == Remove(s)
  }

  predicate MovesOff(op: Op, s: nat) {
    (op.Open? || op.Sync?) && op.slot != s
  }

  /** Slot `s` had bytes at the start (`i` is -1), or operation `i` put something there. */
  predicate Filled(card: Card, ops: seq<Op>, s: nat, i: int) {
    if i < 0 then Present(card, s) else i < |ops| && Puts(ops[i], s)
  }

  /**
   If slot `s` held something at the start or the ring put something into it, then put
   something into another slot, and later into `s` again, it removed `s` in between. So a
   file's bytes all come from one pass.
  */
  ghost predicate OnePassPerFile(card: Card, ops: seq<Op>) {
    forall i, m, j, s: nat | -1 <= i < m < j < |ops| ::
      Filled(card, ops, s, i) && MovesOff(ops[m], s) && Puts(ops[j], s) ==> RemovedBetween(ops, s, i, j)
  }

  /** What the past of a run fixes about its present. */
  ghost predicate Remembers(card: Card, past: seq<Op>, c: Card, cur: nat) {
    && (forall i, s: nat | -1 <= i < |past| ::
          Filled(card, past, s, i) && !RemovedBetween(past, s, i, |past|) ==> Present(c, s))
    && (forall i, m, s: nat | -1 <= i < m < |past| ::
          Filled(card, past, s, i) && MovesOff(past[m], s) && !RemovedBetween(past, s, i, |past|) ==> s != cur)
  }

  lemma RemovedGrows(past: seq<Op>, op: Op, s: nat, from: int)
    ensures RemovedBetween(past + [op], s, from, |past|) == RemovedBetween(past, s, from, |past|)
    ensures RemovedBetween(past + [op], s, from, |past| + 1) ==
      (RemovedBetween(past, s, from, |past|) || (from < |past| && op == Remove(s)))
  {
    var ops := past + [op];
    assert ops[|past|] == op;
    assert forall r | 0 <= r < |past| :: ops[r] == past[r];
    if RemovedBetween(past, s, from, |past|) {
      var r :| from < r < |past| && 0 <= r < |past| && past[r] == Remove(s);
      assert ops[r] == Remove(s);
    }
  }

  lemma OnePassStep(g: Geometry, intact: bool, card: Card, c: Card, cur: nat, past: seq<Op>, op: Op)
    requires Sound(g, intact, c, cur) && Legal(g, intact, c, cur, op)
    requires OnePassPerFile(card, past) && Remembers(card, past, c, cur)
    ensures OnePassPerFile(card, past + [op]) && Remembers(card, past + [op], Step(c, op), Moved(cur, op))
  {
    var ops := past + [op];
    assert forall i | 0 <= i < |past| :: ops[i] == past[i];
    forall i, m, j, s: nat |
      -1 <= i < m < j < |ops| && Filled(card, ops, s, i) && MovesOff(ops[m], s) && Puts(ops[j], s)
      ensures RemovedBetween(ops, s, i, j)
    {
      assert Filled(card, past, s, i);
      if j == |past| {
        RemovedGrows(past, op, s, i);
      } else {
        assert RemovedBetween(past, s, i, j);
        var r :| i < r < j && 0 <= r < |past| && past[r] == Remove(s);
        assert ops[r] == Remove(s);
      }
    }
    forall i, s: nat | -1 <= i < |ops| && Filled(card, ops, s, i) && !RemovedBetween(ops, s, i, |ops|)
      ensures Present(Step(c, op), s)
    {
      RemovedGrows(past, op, s, i);
      if i < |past| {
        assert Filled(card, past, s, i);
        assert Present(c, s) && op != Remove(s);
      }
    }
    forall i, m, s: nat | -1 <= i < m < |ops| && Filled(card, ops, s, i) && MovesOff(ops[m], s)
      && !RemovedBetween(ops, s, i, |ops|)
      ensures s != Moved(cur, op)
    {
      RemovedGrows(past, op, s, i);
      assert Filled(card, past, s, i);
      assert Present(c, s);
    }
  }

  lemma {:induction false} LegalIsOnePass(
    g: Geometry, intact: bool, card: Card, c: Card, cur: nat, past: seq<Op>, ops: seq<Op>)
    requires Sound(g, intact, c, cur) && LegalSeq(g, intact, c, cur, ops)
    requires OnePassPerFile(card, past) && Remembers(card, past, c, cur)
    ensures OnePassPerFile(card, past + ops)
    decreases |ops|
  {
    if ops == [] {
      assert past + ops == past;
    } else {
      OnePassStep(g, intact, card, c, cur, past, ops[0]);
      SoundStep(g, intact, c, cur, ops[0]);
      LegalIsOnePass(g, intact, card, Step(c, ops[0]), Moved(cur, ops[0]), past + [ops[0]], ops[1..]);
      assert past + ops == past + [ops[0]] + ops[1..];
    }
  }

  /**
   On every run of begin, write, rotate and end, with power cut between any two card
   operations and the index lost, put out of range or made to name a full slot at any
   time, no file of the ring holds bytes from two passes, those it held at the start included.
  */
  lemma NoFileHoldsTwoPasses(g: Geometry, card: Card, events: seq<Event>)
    requires RingCard(g, card) && RunAdmitted(g, Sys(card, None), events)
    ensures OnePassPerFile(card, RunOps(g, Sys(card, None), events))
  {
    var cur: nat :| Sound(g, false, card, cur);
    var ops := RunOps(g, Sys(card, None), events);
    var next := RunLegal(g, false, Sys(card, None), cur, events);
    LegalIsOnePass(g, false, card, card, cur, [], ops);
    assert [] + ops == ops;
  }

  /** So it is from a card that has never been written. */
  lemma BlankCardHoldsOnePassPerFile(g: Geometry, events: seq<Event>)
    requires RunAdmitted(g, Sys(BlankCard(g), None), events)
    ensures OnePassPerFile(BlankCard(g), RunOps(g, Sys(BlankCard(g), None), events))
  {
    BlankIsRingCard(g);
    NoFileHoldsTwoPasses(g, BlankCard(g), events);
  }

  lemma {:induction false} LegalAt(g: Geometry, intact: bool, c: Card, cur: nat, ops: seq<Op>, i: nat)
    requires LegalSeq(g, intact, c, cur, ops) && i < |ops|
    ensures Legal(g, intact, Apply(c, ops[..i]), MovedBy(cur, ops[..i]), ops[i])
    decreases i
  {
    if i > 0 {
      assert ops[..i][0] == ops[0] && ops[..i][1..] == ops[1..][..i - 1];
      LegalAt(g, intact, Step(c, ops[0]), Moved(cur, ops[0]), ops[1..], i - 1);
    }
  }

  /** On every such run, no file that is full when it is opened is ever opened to append to. */
  lemma FullFilesAreNotReopened(g: Geometry, card: Card, events: seq<Event>, i: nat)
    requires RingCard(g, card) && RunAdmitted(g, Sys(card, None), events)
    requires i < |RunOps(g, Sys(card, None), events)| && RunOps(g, Sys(card, None), events)[i].Open?
    ensures var ops := RunOps(g, Sys(card, None), events); !Full(g, Apply(card, ops[..i]), ops[i].slot)
  {
    var cur: nat :| Sound(g, false, card, cur);
    var next := RunLegal(g, false, Sys(card, None), cur, events);
    LegalAt(g, false, card, cur, RunOps(g, Sys(card, None), events), i);
  }
}
