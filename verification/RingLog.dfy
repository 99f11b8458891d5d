/**
 With its index intact the ring is a bounded log: read from the slot after the index round
 to the index, it holds the latest bytes that became durable, in order; nothing is lost but
 whole files, oldest first, and only when every file is full.
*/
module RingLog {
  import opened Cards
  import opened RingSpec
  import opened RingSafety

  function BytesOf(x: Option<Bytes>): Bytes {
    if x.Some? then x.value else []
  }

  function Flat(slots: seq<Option<Bytes>>): Bytes {
    if slots == [] then [] else BytesOf(slots[0]) + Flat(slots[1..])
  }

  /** The log as the ring holds it, oldest byte first. */
  function RingBytes(g: Geometry, c: Card): Bytes
    requires |c.slots| == g.n
  {
    var e := ReadIndex(g, c);
    Flat(c.slots[e + 1..]) + Flat(c.slots[..e + 1])
  }

  /** The contents of the files that `ops` removed, in order of removal. */
  function Dropped(c: Card, ops: seq<Op>): Bytes
    decreases |ops|
  {
    if ops == [] then []
    else (if ops[0].Remove? then Content(c, ops[0].slot) else []) + Dropped(Step(c, ops[0]), ops[1..])
  }

  lemma {:induction false} FlatConcat(a: seq<Option<Bytes>>, b: seq<Option<Bytes>>)
    ensures Flat(a + b) == Flat(a) + Flat(b)
  {
    if a == [] {
      assert a + b == b;
    } else {
      assert (a + b)[0] == a[0] && (a + b)[1..] == a[1..] + b;
      FlatConcat(a[1..], b);
    }
  }

  lemma FlatSplitsFirst(slots: seq<Option<Bytes>>)
    requires slots != []
    ensures Flat(slots) == Flat([slots[0]]) + Flat(slots[1..])
  {
    assert slots == [slots[0]] + slots[1..];
    FlatConcat([slots[0]], slots[1..]);
  }

  lemma {:induction false} FlatAt(slots: seq<Option<Bytes>>, i: nat)
    requires i < |slots|
    ensures Flat(slots) == Flat(slots[..i]) + BytesOf(slots[i]) + Flat(slots[i + 1..])
  {
    assert slots == slots[..i] + slots[i..];
    FlatConcat(slots[..i], slots[i..]);
    assert slots[i..][1..] == slots[i + 1..];
  }

  /** Replacing a slot's bytes by `x` in a stretch that contains it. */
  lemma FlatUpdate(slots: seq<Option<Bytes>>, i: nat, x: Option<Bytes>)
    requires i < |slots|
    ensures Flat(slots[i := x]) == Flat(slots[..i]) + BytesOf(x) + Flat(slots[i + 1..])
  {
    var s := slots[i := x];
    FlatAt(s, i);
    assert s[..i] == slots[..i] && s[i + 1..] == slots[i + 1..];
  }

  lemma SyncConserves(g: Geometry, c: Card, tail: Bytes)
    requires |c.slots| == g.n && Present(c, ReadIndex(g, c))
    ensures RingBytes(g, Step(c, Sync(ReadIndex(g, c), tail))) == RingBytes(g, c) + tail
  {
    var e := ReadIndex(g, c);
    var d := Step(c, Sync(e, tail));
    var head := c.slots[..e + 1];
    assert d.slots[e + 1..] == c.slots[e + 1..];
    assert d.slots[..e + 1] == head[e := Some(Content(c, e) + tail)];
    LastGrows(head, Content(c, e), tail);
    Assoc(Flat(c.slots[e + 1..]), Flat(head), tail);
  }

  lemma LastGrows(slots: seq<Option<Bytes>>, last: Bytes, more: Bytes)
    requires slots != [] && slots[|slots| - 1] == Some(last)
    ensures Flat(slots[|slots| - 1 := Some(last + more)]) == Flat(slots) + more
  {
    var e := |slots| - 1;
    FlatAt(slots, e);
    FlatUpdate(slots, e, Some(last + more));
    assert slots[e + 1..] == [];
    FlatTail(Flat(slots[..e]), last, more);
  }

  lemma FlatTail(before: Bytes, last: Bytes, more: Bytes)
    ensures before + (last + more) + [] == (before + last + []) + more
  {
  }

  lemma OpenConserves(g: Geometry, c: Card, s: nat)
    requires |c.slots| == g.n && s == ReadIndex(g, c)
    ensures RingBytes(g, Step(c, Open(s))) == RingBytes(g, c)
  {
    var d := Step(c, Open(s));
    if Absent(c, s) {
      var head := c.slots[..s + 1];
      assert d.slots[s + 1..] == c.slots[s + 1..];
      assert d.slots[..s + 1] == head[s := Some([])];
      FlatAt(head, s);
      FlatUpdate(head, s, Some([]));
    }
  }

  lemma DropFirst(slots: seq<Option<Bytes>>)
    requires slots != []
    ensures Flat(slots) == BytesOf(slots[0]) + Flat(slots[0 := None])
  {
    assert slots[0 := None][1..] == slots[1..];
  }

  lemma DropNext(slots: seq<Option<Bytes>>, e: nat)
    requires e < |slots|
    ensures var s := if e + 1 < |slots| then e + 1 else 0;
      var d := slots[s := None];
      Flat(slots[e + 1..]) + Flat(slots[..e + 1]) ==
      BytesOf(slots[s]) + (Flat(d[e + 1..]) + Flat(d[..e + 1]))
  {
    if e + 1 < |slots| {
      var d := slots[e + 1 := None];
      assert d[..e + 1] == slots[..e + 1];
      assert d[e + 1..] == slots[e + 1..][0 := None];
      DropFirst(slots[e + 1..]);
      Assoc(BytesOf(slots[e + 1]), Flat(d[e + 1..]), Flat(d[..e + 1]));
    } else {
      var d := slots[0 := None];
      assert slots[e + 1..] == [] && d[e + 1..] == [];
      assert slots[..e + 1] == slots && d[..e + 1] == d;
      DropFirst(slots);
      assert [] + Flat(slots) == Flat(slots) && [] + Flat(d) == Flat(d);
    }
  }

  lemma Assoc(a: Bytes, b: Bytes, c: Bytes)
    ensures (a + b) + c == a + (b + c)
  {
  }

  lemma RemoveConserves(g: Geometry, c: Card)
    requires |c.slots| == g.n
    ensures var s := Place(g, ReadIndex(g, c), 1);
      RingBytes(g, c) == Content(c, s) + RingBytes(g, Step(c, Remove(s)))
  {
    PlaceIs(g, ReadIndex(g, c), 1);
    DropNext(c.slots, ReadIndex(g, c));
  }

  /** Moving on to an absent slot ahead. */
  lemma MoveForward(slots: seq<Option<Bytes>>, e: nat)
    requires e + 1 < |slots| && slots[e + 1].None?
    ensures Flat(slots[e + 2..]) == Flat(slots[e + 1..]) && Flat(slots[..e + 2]) == Flat(slots[..e + 1])
  {
    assert slots[e + 1..][1..] == slots[e + 2..];
    FlatSplitsFirst(slots[e + 1..]);
    assert slots[..e + 2] == slots[..e + 1] + [slots[e + 1]];
    FlatConcat(slots[..e + 1], [slots[e + 1]]);
    FlatOfAbsent();
  }

  /** Moving on from the last slot to an absent first one. */
  lemma MoveAround(slots: seq<Option<Bytes>>)
    requires slots != [] && slots[0].None?
    ensures Flat(slots[1..]) + Flat(slots[..1]) == Flat(slots)
  {
    assert slots[..1] == [slots[0]];
    FlatSplitsFirst(slots);
    FlatOfAbsent();
  }

  lemma FlatOfAbsent()
    ensures Flat([None]) == []
  {
  }

  lemma MoveConserves(g: Geometry, c: Card)
    requires |c.slots| == g.n && Absent(c, Place(g, ReadIndex(g, c), 1))
    ensures RingBytes(g, Step(c, SetIndex(Place(g, ReadIndex(g, c), 1)))) == RingBytes(g, c)
  {
    var e := ReadIndex(g, c);
    PlaceIs(g, e, 1);
    if e + 1 < g.n {
      MoveForward(c.slots, e);
    } else {
      MoveAround(c.slots);
      assert c.slots[e + 1..] == [] && c.slots[..e + 1] == c.slots;
    }
  }

  lemma StepConserves(g: Geometry, c: Card, cur: nat, op: Op)
    requires Sound(g, true, c, cur) && Legal(g, true, c, cur, op)
    ensures RingBytes(g, c) + (if op.Sync? then op.tail else []) ==
      (if op.Remove? then Content(c, op.slot) else []) + RingBytes(g, Step(c, op))
  {
    match op
    case Open(s) => OpenConserves(g, c, s);
    case Sync(s, tail) => SyncConserves(g, c, tail);
    case Remove(s) => RemoveConserves(g, c);
    case SetIndex(s) => if s != ReadIndex(g, c) { MoveConserves(g, c); }
  }

  /** Nothing is lost and nothing is reordered: what was held and what came in is what went out and what is held. */
  lemma {:induction false} LogConserved(g: Geometry, c: Card, cur: nat, ops: seq<Op>)
    requires Sound(g, true, c, cur) && LegalSeq(g, true, c, cur, ops)
    ensures RingBytes(g, c) + Durable(ops) == Dropped(c, ops) + RingBytes(g, Apply(c, ops))
    decreases |ops|
  {
    if ops != [] {
      var d := Step(c, ops[0]);
      StepConserves(g, c, cur, ops[0]);
      SoundStep(g, true, c, cur, ops[0]);
      LogConserved(g, d, Moved(cur, ops[0]), ops[1..]);
      var came := if ops[0].Sync? then ops[0].tail else [];
      var went := if ops[0].Remove? then Content(c, ops[0].slot) else [];
      Regroup(RingBytes(g, c), came, Durable(ops[1..]),
              went, Dropped(d, ops[1..]), RingBytes(g, d), RingBytes(g, Apply(c, ops)));
    }
  }

  lemma Regroup(held: Bytes, came: Bytes, comes: Bytes, went: Bytes, goes: Bytes, mid: Bytes, end: Bytes)
    requires held + came == went + mid && mid + comes == goes + end
    ensures held + (came + comes) == (went + goes) + end
  {
    assert held + (came + comes) == (held + came) + comes;
    assert (went + mid) + comes == went + (mid + comes);
    assert went + (goes + end) == (went + goes) + end;
  }

  // -------------------------------------------------------------------------
  // What is retained
  // -------------------------------------------------------------------------

  lemma {:induction false} FullLength(slots: seq<Option<Bytes>>, size: nat)
    requires forall i | 0 <= i < |slots| :: |BytesOf(slots[i])| >= size
    ensures |Flat(slots)| >= |slots| * size
  {
    if slots != [] {
      FullLength(slots[1..], size);
      Distribute(1, |slots| - 1, size);
    }
  }

  lemma RingLength(g: Geometry, c: Card, cur: nat)
    requires |c.slots| == g.n && cur < g.n && OthersFull(g, c, cur)
    ensures |RingBytes(g, c)| >= (g.n - 1) * g.size
  {
    var e := ReadIndex(g, c);
    assert c.slots == c.slots[..e + 1] + c.slots[e + 1..];
    FlatConcat(c.slots[..e + 1], c.slots[e + 1..]);
    forall s | 0 <= s < g.n && s != cur ensures |BytesOf(c.slots[s])| >= g.size {
      assert Full(g, c, s);
    }
    AllButOneFull(c.slots, cur, g.size);
  }

  lemma AllButOneFull(slots: seq<Option<Bytes>>, cur: nat, size: nat)
    requires cur < |slots|
    requires forall i | 0 <= i < |slots| && i != cur :: |BytesOf(slots[i])| >= size
    ensures |Flat(slots)| >= (|slots| - 1) * size
  {
    FlatAt(slots, cur);
    FullLength(slots[..cur], size);
    FullLength(slots[cur + 1..], size);
    Distribute(cur, |slots| - cur - 1, size);
  }

  lemma Distribute(a: int, b: int, size: int)
    ensures a * size + b * size == (a + b) * size
  {
  }

  predicate Removes(ops: seq<Op>) {
    exists i :: 0 <= i < |ops| && ops[i].Remove?
  }

  lemma {:induction false} WrappedStaysFull(g: Geometry, c: Card, cur: nat, ops: seq<Op>)
    requires Sound(g, true, c, cur) && LegalSeq(g, true, c, cur, ops)
    requires OthersFull(g, c, cur) || Removes(ops)
    ensures OthersFull(g, Apply(c, ops), MovedBy(cur, ops))
    decreases |ops|
  {
    if ops != [] {
      var d := Step(c, ops[0]);
      var next := Moved(cur, ops[0]);
      SoundStep(g, true, c, cur, ops[0]);
      if ops[0].Remove? {
        forall s | 0 <= s < g.n && s != next ensures Full(g, d, s) {
          assert Full(g, c, s);
        }
      } else if OthersFull(g, c, cur) {
        forall s | 0 <= s < g.n && s != next ensures Full(g, d, s) {
          assert s == cur || Full(g, c, s);
        }
      } else {
        var i :| 0 <= i < |ops| && ops[i].Remove?;
        assert ops[1..][i - 1].Remove?;
      }
      WrappedStaysFull(g, d, next, ops[1..]);
    }
  }

  // -------------------------------------------------------------------------
  // The bounded log, over every run and every cut
  // -------------------------------------------------------------------------

  /** A card whose index has always been intact. */
  ghost predicate IntactCard(g: Geometry, c: Card) {
    exists cur: nat :: Sound(g, true, c, cur)
  }

  lemma BlankIsIntact(g: Geometry)
    ensures IntactCard(g, BlankCard(g)) && RingBytes(g, BlankCard(g)) == []
  {
    assert Sound(g, true, BlankCard(g), 0);
    AllAbsentIsEmpty(BlankCard(g).slots[1..]);
    AllAbsentIsEmpty(BlankCard(g).slots[..1]);
  }

  lemma {:induction false} AllAbsentIsEmpty(slots: seq<Option<Bytes>>)
    requires forall i | 0 <= i < |slots| :: slots[i].None?
    ensures Flat(slots) == []
  {
    if slots != [] {
      AllAbsentIsEmpty(slots[1..]);
    }
  }

  /** Every removal takes the oldest file, the one after the index, and only off a full ring. */
  ghost predicate OnlyOldestRemoved(g: Geometry, card: Card, ops: seq<Op>) {
    forall i | 0 <= i < |ops| && ops[i].Remove? ::
      var c := Apply(card, ops[..i]);
      AllFull(g, c) && ops[i].slot == Place(g, ReadIndex(g, c), 1)
  }

  /**
   After any number of card operations of any run, cuts included: the ring holds a suffix
   of everything that became durable, whatever is missing was removed oldest file first
   from a full ring, and from the first removal on at least n - 1 full files are retained.
  */
  lemma RefinesBoundedLog(g: Geometry, card: Card, events: seq<Event>, k: nat)
    requires IntactCard(g, card) && NoDamage(events) && RunAdmitted(g, Sys(card, None), events)
    requires k <= |RunOps(g, Sys(card, None), events)|
    ensures var ops := RunOps(g, Sys(card, None), events)[..k];
      var now := Apply(card, ops);
      && RingBytes(g, card) + Durable(ops) == Dropped(card, ops) + RingBytes(g, now)
      && OnlyOldestRemoved(g, card, ops)
      && (Removes(ops) ==> |RingBytes(g, now)| >= (g.n - 1) * g.size)
      && IntactCard(g, now)
  {
    var cur: nat :| Sound(g, true, card, cur);
    var s := Sys(card, None);
    var next := RunLegal(g, true, s, cur, events);
    LegalPrefix(g, true, card, cur, RunOps(g, s, events), k);
    var ops := RunOps(g, s, events)[..k];
    SoundSeq(g, true, card, cur, ops);
    LogConserved(g, card, cur, ops);
    forall i | 0 <= i < |ops| && ops[i].Remove?
      ensures var c := Apply(card, ops[..i]); AllFull(g, c) && ops[i].slot == Place(g, ReadIndex(g, c), 1)
    {
      LegalAt(g, true, card, cur, ops, i);
    }
    if Removes(ops) {
      WrappedStaysFull(g, card, cur, ops);
      RingLength(g, Apply(card, ops), MovedBy(cur, ops));
    }
  }

  /** From a blank card, the ring is a suffix of the durable bytes at every moment. */
  lemma RingIsDurableSuffix(g: Geometry, events: seq<Event>, k: nat)
    requires NoDamage(events) && RunAdmitted(g, Sys(BlankCard(g), None), events)
    requires k <= |RunOps(g, Sys(BlankCard(g), None), events)|
    ensures var ops := RunOps(g, Sys(BlankCard(g), None), events)[..k];
      var held := RingBytes(g, Apply(BlankCard(g), ops));
      |held| <= |Durable(ops)| && held == Durable(ops)[|Durable(ops)| - |held|..]
  {
    BlankIsIntact(g);
    RefinesBoundedLog(g, BlankCard(g), events, k);
    var ops := RunOps(g, Sys(BlankCard(g), None), events)[..k];
    var held := RingBytes(g, Apply(BlankCard(g), ops));
    assert [] + Durable(ops) == Durable(ops);
    assert (Dropped(BlankCard(g), ops) + held)[|Dropped(BlankCard(g), ops)|..] == held;
  }
}
