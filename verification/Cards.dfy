/**
 The SD card as the flight log sees it: one slot per ring file, plus `index.bin`.

 A slot holds the bytes that have reached the card. What a writing handle has accepted
 but not yet synced is RAM state (see RingSpec), so losing power loses exactly that and
 leaves the card as it stands. Every change the firmware makes to the card is one `Op`.
*/
module Cards {

  datatype Option<+T> = None | Some(value: T)

  type u8 = x: int | 0 <= x < 0x100
  type Bytes = seq<u8>

  type pos = x: int | x > 0 witness 1

  /** How many files the ring has, and the size at which one of them is finished. */
  datatype Geometry = Geometry(n: pos, size: nat)

  datatype Card = Card(slots: seq<Option<Bytes>>, index: Option<int>)

  /** One atomic change of the card. */
  datatype Op =
    | Open(slot: nat)                  // open for appending, created empty if absent
    | Sync(slot: nat, tail: Bytes)     // the bytes appended since the last sync
    | Remove(slot: nat)
    | SetIndex(slot: nat)              // index.bin overwritten
    | Damage(index: Option<int>)       // not the firmware's: index.bin lost or altered

  predicate Present(c: Card, s: nat) {
    s < |c.slots| && c.slots[s].Some?
  }

  predicate Absent(c: Card, s: nat) {
    s < |c.slots| && c.slots[s].None?
  }

  function Content(c: Card, s: nat): Bytes {
    if Present(c, s) then c.slots[s].value else []
  }

  /** The rotation test. An absent slot is not full. */
  predicate Full(g: Geometry, c: Card, s: nat) {
    Present(c, s) && |Content(c, s)| >= g.size
  }

  predicate AllFull(g: Geometry, c: Card) {
    forall s | 0 <= s < |c.slots| :: Full(g, c, s)
  }

  function Step(c: Card, op: Op): (r: Card)
    ensures |r.slots| == |c.slots|
  {
    match op
    case Open(s) => if Absent(c, s) then c.(slots := c.slots[s := Some([])]) else c
    case Sync(s, tail) => if Present(c, s) then c.(slots := c.slots[s := Some(Content(c, s) + tail)]) else c
    case Remove(s) => if s < |c.slots| then c.(slots := c.slots[s := None]) else c
    case SetIndex(s) => c.(index := Some(s))
    case Damage(i) => c.(index := i)
  }

  function Apply(c: Card, ops: seq<Op>): (r: Card)
    ensures |r.slots| == |c.slots|
    decreases |ops|
  {
    if ops == [] then c else Apply(Step(c, ops[0]), ops[1..])
  }

  lemma {:induction false} ApplyConcat(c: Card, a: seq<Op>, b: seq<Op>)
    ensures Apply(c, a + b) == Apply(Apply(c, a), b)
    decreases |a|
  {
    if a == [] {
      assert a + b == b;
    } else {
      assert (a + b)[0] == a[0] && (a + b)[1..] == a[1..] + b;
      ApplyConcat(Step(c, a[0]), a[1..], b);
    }
  }

  /** The bytes that have become durable, in the order they did. */
  function Durable(ops: seq<Op>): Bytes {
    if ops == [] then []
    else (if ops[0].Sync? then ops[0].tail else []) + Durable(ops[1..])
  }

  lemma {:induction false} DurableConcat(a: seq<Op>, b: seq<Op>)
    ensures Durable(a + b) == Durable(a) + Durable(b)
  {
    if a == [] {
      assert a + b == b;
    } else {
      assert (a + b)[0] == a[0] && (a + b)[1..] == a[1..] + b;
      DurableConcat(a[1..], b);
    }
  }

  /** `P` holds of the card before the first of `ops`, and after each of them. */
  ghost predicate Along(P: Card -> bool, c: Card, ops: seq<Op>)
    decreases |ops|
  {
    P(c) && (ops == [] || Along(P, Step(c, ops[0]), ops[1..]))
  }

  lemma {:induction false} AlongConcat(P: Card -> bool, c: Card, a: seq<Op>, b: seq<Op>)
    requires Along(P, c, a) && Along(P, Apply(c, a), b)
    ensures Along(P, c, a + b)
    decreases |a|
  {
    if a == [] {
      assert a + b == b;
    } else {
      assert (a + b)[0] == a[0] && (a + b)[1..] == a[1..] + b;
      AlongConcat(P, Step(c, a[0]), a[1..], b);
    }
  }

  lemma {:induction false} AlongPrefix(P: Card -> bool, c: Card, ops: seq<Op>, k: nat)
    requires Along(P, c, ops) && k <= |ops|
    ensures Along(P, c, ops[..k]) && P(Apply(c, ops[..k]))
    decreases k
  {
    if k > 0 {
      assert ops[..k][0] == ops[0] && ops[..k][1..] == ops[1..][..k - 1];
      AlongPrefix(P, Step(c, ops[0]), ops[1..], k - 1);
    }
  }
}
