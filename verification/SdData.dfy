/**
 The flight log's ring as the firmware runs it: an object that changes its own fields and
 the card, one card operation at a time, proved to perform exactly the operations RingSpec
 lists for each call, in that order.
*/
module SdDataRing {
  import opened Cards
  import opened RingSpec
  import opened RingSafety

  /** The card. `ops` records every change made to it, in order. */
  class SdCard {
    var slots: seq<Option<Bytes>>
    var index: Option<int>
    ghost var ops: seq<Op>

    function State(): Card
      reads this
    {
      Card(slots, index)
    }

    constructor (c: Card)
      ensures State() == c && ops == []
    {
      slots, index, ops := c.slots, c.index, [];
    }

    /** Opened for appending; created empty, and durably so, if it does not exist. */
    method OpenFile(slot: nat)
      requires slot < |slots|
      modifies this
      ensures State() == Step(old(State()), Open(slot)) && ops == old(ops) + [Open(slot)]
    {
      if slots[slot].None? {
        slots := slots[slot := Some([])];
      }
      ops := ops + [Open(slot)];
    }

    method SyncFile(slot: nat, tail: Bytes)
      requires Present(State(), slot)
      modifies this
      ensures State() == Step(old(State()), Sync(slot, tail)) && ops == old(ops) + [Sync(slot, tail)]
    {
      slots := slots[slot := Some(slots[slot].value + tail)];
      ops := ops + [Sync(slot, tail)];
    }

    method RemoveFile(slot: nat)
      requires Present(State(), slot)
      modifies this
      ensures State() == Step(old(State()), Remove(slot)) && ops == old(ops) + [Remove(slot)]
    {
      slots := slots[slot := None];
      ops := ops + [Remove(slot)];
    }

    method OverwriteIndex(slot: nat)
      modifies this
      ensures State() == Step(old(State()), SetIndex(slot)) && ops == old(ops) + [SetIndex(slot)]
    {
      index := Some(slot);
      ops := ops + [SetIndex(slot)];
    }
  }

  class SdData {
    const files: pos
    const size: nat
    const card: SdCard
    var fileIdx: nat
    var sinceFlush: nat
    var isOpen: bool      // whether a file is held
    var pending: Bytes    // what the held handle has accepted and not yet synced

    ghost function Ring(): Geometry {
      Geometry(files, size)
    }

    ghost function Handle(): Option<Ram>
      reads this
    {
      if isOpen then Some(Ram(fileIdx, pending, sinceFlush)) else None
    }

    /** What a run of RingSpec sees of this object and its card. */
    ghost function View(): Sys
      reads this, card
    {
      Sys(card.State(), Handle())
    }

    ghost predicate Valid()
      reads this, card
    {
      |card.slots| == files && fileIdx < files && (isOpen ==> Present(card.State(), fileIdx))
    }

    /** From state `c` and history `past`, the card went through exactly `ops`. */
    ghost predicate Did(c: Card, past: seq<Op>, ops: seq<Op>)
      reads card
    {
      card.ops == past + ops && card.State() == Apply(c, ops)
    }

    constructor (files: pos, size: nat, card: SdCard)
      requires |card.slots| == files
      ensures Valid() && !isOpen && this.card == card && this.files == files && this.size == size
    {
      this.files, this.size, this.card := files, size, card;
      fileIdx, sinceFlush, isOpen, pending := 0, 0, false, [];
    }

    method ReadLogIndex() returns (idx: nat)
      requires Valid()
      ensures idx == ReadIndex(Ring(), card.State())
    {
      if card.index.None? { return 0; }
      var stored := card.index.value;
      if stored < 0 || stored >= files { return 0; }
      return stored;
    }

    method WriteLogIndex()
      requires Valid()
      modifies card
      ensures Valid() && card.State() == Step(old(card.State()), SetIndex(fileIdx))
      ensures card.ops == old(card.ops) + [SetIndex(fileIdx)]
    {
      card.OverwriteIndex(fileIdx);
    }

    /** By the size in the directory entry, so by what has been synced. */
    method SlotIsFull(idx: nat) returns (full: bool)
      requires Valid() && idx < files
      ensures full == Full(Ring(), card.State(), idx)
    {
      full := card.slots[idx].Some? && |card.slots[idx].value| >= size;
    }

    /** Closing a file syncs what it holds. */
    method Close()
      requires Valid()
      modifies this`isOpen, this`pending, card
      ensures Valid() && Handle() == None && Did(old(card.State()), old(card.ops), CloseOps(old(Handle())))
    {
      if isOpen {
        ghost var ops := CloseOps(Handle());
        card.SyncFile(fileIdx, pending);
        isOpen, pending := false, [];
        assert ops[1..] == [];
      }
    }

    method End()
      requires Valid()
      modifies this, card
      ensures Valid() && Did(old(card.State()), old(card.ops), Plan(Ring(), old(View()), CallEnd).ops)
      ensures Handle() == Plan(Ring(), old(View()), CallEnd).ram
    {
      if isOpen {
        Close();
        sinceFlush := 0;
      }
    }

    method AppendBytes(data: Bytes)
      requires Valid()
      modifies this`pending
      ensures Valid() && pending == old(pending) + if isOpen then data else []
    {
      if !isOpen || |data| == 0 { return; }
      pending := pending + data;
    }

    /** Appends and syncs; never checks the size, so never rotates. */
    method WriteRaw(data: Bytes)
      requires Valid()
      modifies this`pending, this`sinceFlush, card
      ensures Valid()
      ensures isOpen ==>
        Did(old(card.State()), old(card.ops), [Sync(fileIdx, old(pending) + data)]) && pending == [] && sinceFlush == 0
      ensures !isOpen ==>
        Did(old(card.State()), old(card.ops), []) && pending == old(pending) && sinceFlush == old(sinceFlush)
    {
      AppendBytes(data);
      if isOpen {
        ghost var ops := [Sync(fileIdx, pending)];
        card.SyncFile(fileIdx, pending);
        pending, sinceFlush := [], 0;
        assert ops[1..] == [];
      }
    }

    /** The open callback writes its preamble, chunk by chunk. */
    method NotifyOpened(chunks: seq<Bytes>)
      requires Valid() && isOpen && pending == [] && sinceFlush == 0
      modifies this`pending, this`sinceFlush, card
      ensures Valid() && Did(old(card.State()), old(card.ops), PreambleOps(fileIdx, chunks))
      ensures pending == [] && sinceFlush == 0
    {
      var i := 0;
      while i < |chunks|
        invariant i <= |chunks|
        invariant Valid() && isOpen && pending == [] && sinceFlush == 0
        invariant Did(old(card.State()), old(card.ops), PreambleOps(fileIdx, chunks[..i]))
      {
        ghost var before := PreambleOps(fileIdx, chunks[..i]);
        ghost var here := card.State();
        WriteRaw(chunks[i]);
        assert [] + chunks[i] == chunks[i];
        ApplyConcat(old(card.State()), before, [Sync(fileIdx, chunks[i])]);
        PreambleSnoc(fileIdx, chunks, i);
        i := i + 1;
      }
      assert chunks[..i] == chunks;
    }

    /** Opens the slot the ring is now in, and announces it. */
    method OpenCurrent(chunks: seq<Bytes>)
      requires Valid() && !isOpen
      modifies this`isOpen, this`pending, this`sinceFlush, card
      ensures Valid() && Handle() == Some(Ram(fileIdx, [], 0))
      ensures Did(old(card.State()), old(card.ops), [Open(fileIdx)] + PreambleOps(fileIdx, chunks))
    {
      card.OpenFile(fileIdx);
      isOpen, pending := true, [];
      sinceFlush := 0;
      NotifyOpened(chunks);
      assert ([Open(fileIdx)] + PreambleOps(fileIdx, chunks))[1..] == PreambleOps(fileIdx, chunks);
    }

    /** Rotation: close, remove what the next slot held, persist the index, open, preamble. */
    method OpenNextSlot(chunks: seq<Bytes>)
      requires Valid()
      modifies this, card
      ensures Valid() && Did(old(card.State()), old(card.ops), CloseOps(old(Handle())) +
        NextSlotOps(Ring(), Apply(old(card.State()), CloseOps(old(Handle()))), old(fileIdx), chunks))
      ensures Handle() == Some(Ram(Place(Ring(), old(fileIdx), 1), [], 0))
    {
      ghost var start, past, close := card.State(), card.ops, CloseOps(Handle());
      Close();
      ghost var closed := card.State();
      sinceFlush := 0;
      MoveOn(chunks);
      Chained(start, past, close, NextSlotOps(Ring(), closed, old(fileIdx), chunks));
    }

    /** The part of a rotation that follows the close. */
    method MoveOn(chunks: seq<Bytes>)
      requires Valid() && !isOpen
      modifies this, card
      ensures Valid()
      ensures Did(old(card.State()), old(card.ops), NextSlotOps(Ring(), old(card.State()), old(fileIdx), chunks))
      ensures Handle() == Some(Ram(Place(Ring(), old(fileIdx), 1), [], 0))
    {
      ghost var closed, from := card.State(), fileIdx;
      fileIdx := (fileIdx + 1) % files;
      if card.slots[fileIdx].Some? {
        card.RemoveFile(fileIdx);
      }
      WriteLogIndex();
      OpenCurrent(chunks);
      NextSlotApplied(Ring(), closed, from, chunks);
    }

    /** The first slot in ring order from `indexed` that is not full, or -1. */
    method FindResumeSlot(indexed: nat) returns (resume: int)
      requires Valid()
      ensures resume < files
      ensures FirstNotFull(Ring(), card.State(), indexed, 0) == if resume < 0 then None else Some(resume)
    {
      resume := -1;
      var step := 0;
      while step < files
        invariant 0 <= step <= files
        invariant FirstNotFull(Ring(), card.State(), indexed, 0) == FirstNotFull(Ring(), card.State(), indexed, step)
      {
        var slot := (indexed + step) % files;
        var full := SlotIsFull(slot);
        if !full {
          return slot;
        }
        step := step + 1;
      }
    }

    /** Goes on in a file that is not full, moving the index to it if need be. */
    method ResumeAt(slot: nat, indexed: nat, chunks: seq<Bytes>)
      requires Valid() && !isOpen && slot < files && indexed == ReadIndex(Ring(), card.State())
      requires FirstNotFull(Ring(), card.State(), indexed, 0) == Some(slot)
      modifies this, card
      ensures Valid() && Did(old(card.State()), old(card.ops), ResumeOps(Ring(), old(card.State()), chunks))
      ensures Handle() == Some(Ram(slot, [], 0))
    {
      ghost var c, past := card.State(), card.ops;
      fileIdx := slot;
      if slot != indexed {
        WriteLogIndex();
      }
      OpenCurrent(chunks);
      Resumed(Ring(), c, past, slot, chunks);
    }

    /** With every file full there is nothing to go on in: a rotation from the indexed slot. */
    method RotateFrom(indexed: nat, chunks: seq<Bytes>)
      requires Valid() && !isOpen && indexed == ReadIndex(Ring(), card.State())
      requires FirstNotFull(Ring(), card.State(), indexed, 0) == None
      modifies this, card
      ensures Valid() && Did(old(card.State()), old(card.ops), ResumeOps(Ring(), old(card.State()), chunks))
      ensures Handle() == Some(Ram(Place(Ring(), indexed, 1), [], 0))
    {
      ghost var c := card.State();
      fileIdx := indexed;
      OpenNextSlot(chunks);
      assert [] + NextSlotOps(Ring(), c, indexed, chunks) == ResumeOps(Ring(), c, chunks);
    }

    /**
     Opens the file the ring was writing: the one the index names, or the first in ring
     order from it that is not full. With every file full it rotates instead.
    */
    method Begin(chunks: seq<Bytes>)
      requires Valid()
      modifies this, card
      ensures Valid() && Did(old(card.State()), old(card.ops), Plan(Ring(), old(View()), CallBegin(chunks)).ops)
      ensures Handle() == Plan(Ring(), old(View()), CallBegin(chunks)).ram
    {
      ghost var start, past, close := card.State(), card.ops, CloseOps(Handle());
      Close();
      ghost var c := card.State();

      var indexed := ReadLogIndex();
      var resume := FindResumeSlot(indexed);
      if resume < 0 {
        RotateFrom(indexed, chunks);
      } else {
        ResumeAt(resume, indexed, chunks);
      }
      Chained(start, past, close, ResumeOps(Ring(), c, chunks));
    }

    /** Appends a record, syncs once per interval, and rotates once the file is full. */
    method Write(data: Bytes, chunks: seq<Bytes>)
      requires Valid()
      modifies this, card
      ensures Valid() && Did(old(card.State()), old(card.ops), Plan(Ring(), old(View()), CallWrite(data, chunks)).ops)
      ensures Handle() == Plan(Ring(), old(View()), CallWrite(data, chunks)).ram
    {
      if !isOpen || |data| == 0 { return; }
      ghost var start, past, before := card.State(), card.ops, Handle().value;

      AppendBytes(data);
      sinceFlush := sinceFlush + |data|;
      if sinceFlush >= FLUSH_INTERVAL_BYTES {
        card.SyncFile(fileIdx, pending);
        pending, sinceFlush := [], 0;
      }
      ghost var appended := Append(before, data);
      assert appended.ops != [] ==> appended.ops[1..] == [];
      assert card.ops == old(card.ops) + appended.ops && Handle() == appended.ram;

      var fileSize := |card.slots[fileIdx].value| + |pending|;
      if fileSize >= size {
        ghost var mid, close := card.State(), CloseOps(Handle());
        OpenNextSlot(chunks);
        WriteApplied(start, past, appended.ops, close, NextSlotOps(Ring(), Apply(mid, close), before.slot, chunks));
      }
    }
  }

  lemma Chained(c: Card, past: seq<Op>, a: seq<Op>, b: seq<Op>)
    ensures Apply(c, a + b) == Apply(Apply(c, a), b)
    ensures past + (a + b) == past + a + b
  {
    ApplyConcat(c, a, b);
    assert past + (a + b) == past + a + b;
  }

  lemma NextSlotApplied(g: Geometry, c: Card, from: nat, chunks: seq<Bytes>)
    ensures var next := Place(g, from, 1);
      Apply(c, NextSlotOps(g, c, from, chunks)) ==
      Apply(Step(if Present(c, next) then Step(c, Remove(next)) else c, SetIndex(next)),
            [Open(next)] + PreambleOps(next, chunks))
  {
    var next := Place(g, from, 1);
    var ops := NextSlotOps(g, c, from, chunks);
    var moves := [SetIndex(next), Open(next)] + PreambleOps(next, chunks);
    assert moves[1..] == [Open(next)] + PreambleOps(next, chunks);
    var d := if Present(c, next) then Step(c, Remove(next)) else c;
    if Present(c, next) {
      assert ops[1..] == moves;
    } else {
      assert ops == moves;
    }
    assert Apply(c, ops) == Apply(d, moves);
    assert Apply(d, moves) == Apply(Step(d, SetIndex(next)), moves[1..]);
  }

  lemma Resumed(g: Geometry, c: Card, past: seq<Op>, slot: nat, chunks: seq<Bytes>)
    requires FirstNotFull(g, c, ReadIndex(g, c), 0) == Some(slot)
    ensures var opening := [Open(slot)] + PreambleOps(slot, chunks);
      && (slot != ReadIndex(g, c) ==>
            past + ResumeOps(g, c, chunks) == past + [SetIndex(slot)] + opening
            && Apply(c, ResumeOps(g, c, chunks)) == Apply(Step(c, SetIndex(slot)), opening))
      && (slot == ReadIndex(g, c) ==> ResumeOps(g, c, chunks) == opening)
  {
    var opening := [Open(slot)] + PreambleOps(slot, chunks);
    var ops := ResumeOps(g, c, chunks);
    if slot != ReadIndex(g, c) {
      assert ops == [SetIndex(slot)] + opening;
      assert ops[1..] == opening;
      assert past + ([SetIndex(slot)] + opening) == past + [SetIndex(slot)] + opening;
    } else {
      assert ops == opening;
    }
  }

  lemma WriteApplied(c: Card, past: seq<Op>, append: seq<Op>, close: seq<Op>, rest: seq<Op>)
    ensures Apply(c, append + close + rest) == Apply(Apply(c, append), close + rest)
    ensures past + (append + close + rest) == past + append + (close + rest)
    ensures Apply(c, append + close) == Apply(Apply(c, append), close)
  {
    assert append + close + rest == append + (close + rest);
    Chained(c, past, append, close + rest);
    ApplyConcat(c, append, close);
  }

  lemma {:induction false} PreambleSnoc(slot: nat, chunks: seq<Bytes>, i: nat)
    requires i < |chunks|
    ensures PreambleOps(slot, chunks[..i + 1]) == PreambleOps(slot, chunks[..i]) + [Sync(slot, chunks[i])]
  {
    var next := chunks[..i + 1];
    if i == 0 {
      assert next[1..] == [];
    } else {
      PreambleSnoc(slot, chunks[1..], i - 1);
      assert next[1..] == chunks[1..][..i];
      assert chunks[..i][1..] == chunks[1..][..i - 1];
    }
  }
}
