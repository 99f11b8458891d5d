/**
 The battery-backed block: 23 bytes under a magic and a checksum, in a register file whose
 first four bytes belong to someone else, written one byte at a time.
*/
module RecoveryBlock {
  import opened Cards

  const VALIDITY_MAGIC: u8 := 0xB5
  const OFFSET_VALIDITY_MAGIC := 4
  const OFFSET_CHECKSUM := 5
  const OFFSET_CONSECUTIVE_COUNT := 6
  const OFFSET_CUMULATIVE_COUNT := 7
  const OFFSET_CUMULATIVE_SNAPSHOT := 8
  const OFFSET_PHASE := 9
  const OFFSET_REASON := 10
  const OFFSET_DELIBERATE := 11
  const OFFSET_FAULT_TASK := 12
  const FAULT_TASK_LEN := 15
  const OFFSET_LAST := 26
  const REGISTERS := 512

  function Sum(bytes: Bytes): nat {
    if bytes == [] then 0 else bytes[0] + Sum(bytes[1..])
  }

  /** The sum over the counters and markers, without the magic and the checksum itself. */
  function Checksum(b: Bytes): u8
    requires |b| > OFFSET_LAST
  {
    Sum(b[OFFSET_CONSECUTIVE_COUNT..OFFSET_LAST + 1]) % 256
  }

  lemma {:induction false} SumUpdate(bytes: Bytes, at: nat, value: u8)
    requires at < |bytes|
    ensures Sum(bytes[at := value]) == Sum(bytes) - bytes[at] + value
  {
    if at == 0 {
      assert bytes[at := value][1..] == bytes[1..];
    } else {
      assert bytes[at := value][1..] == bytes[1..][at - 1 := value];
      SumUpdate(bytes[1..], at - 1, value);
    }
  }

  /** A valid block does not survive the change of any one of its 23 bytes. */
  lemma OneByteChangeIsDetected(b: Bytes, i: nat, value: u8)
    requires |b| > 26 && IsValid(b) && 4 <= i <= 26 && value != b[i]
    ensures !IsValid(b[i := value])
  {
    var c := b[i := value];
    var (was, now) := (b[6..27], c[6..27]);
    if i < 6 {
      assert now == was;
    } else {
      assert now == was[i - 6 := value];
      SumUpdate(was, i - 6, value);
      Differ(Sum(was), Sum(now));
    }
  }

  lemma Differ(x: nat, y: nat)
    requires x != y && -256 < x - y < 256
    ensures x % 256 != y % 256
  {
  }

  lemma Carries(total: nat, more: nat)
    ensures (total % 256 + more) % 256 == (total + more) % 256
  {
  }

  predicate IsValid(b: Bytes)
    requires |b| > OFFSET_LAST
  {
    b[OFFSET_VALIDITY_MAGIC] == VALIDITY_MAGIC && b[OFFSET_CHECKSUM] == Checksum(b)
  }

  /** One register store. */
  datatype Store = Store(offset: nat, value: u8)

  function Put(b: Bytes, s: Store): (r: Bytes)
    ensures |r| == |b|
  {
    if s.offset < |b| then b[s.offset := s.value] else b
  }

  function PutAll(b: Bytes, ss: seq<Store>): (r: Bytes)
    ensures |r| == |b|
    decreases |ss|
  {
    if ss == [] then b else PutAll(Put(b, ss[0]), ss[1..])
  }

  lemma {:induction false} PutConcat(b: Bytes, x: seq<Store>, y: seq<Store>)
    ensures PutAll(b, x + y) == PutAll(PutAll(b, x), y)
    decreases |x|
  {
    if x == [] {
      assert x + y == y;
    } else {
      assert (x + y)[0] == x[0] && (x + y)[1..] == x[1..] + y;
      PutConcat(Put(b, x[0]), x[1..], y);
    }
  }

  lemma PutOneMore(b: Bytes, ss: seq<Store>, s: Store)
    ensures PutAll(b, ss + [s]) == Put(PutAll(b, ss), s)
  {
    PutConcat(b, ss, [s]);
    assert [s][1..] == [];
  }

  /** A task's name as the fault hook finds it in memory: it ends at a NUL, or where it ends. */
  function NameByte(name: Option<Bytes>, i: nat): u8 {
    if name.None? || i >= |name.value| || (exists j :: 0 <= j <= i && name.value[j] == 0) then 0 else name.value[i]
  }

  /** The name as read back: cut at 15 bytes or the first NUL, unprintables as '?'. */
  function Legible(name: Option<Bytes>, from: nat): Bytes
    decreases FAULT_TASK_LEN - from
  {
    if from >= FAULT_TASK_LEN || NameByte(name, from) == 0 then []
    else [Printable(NameByte(name, from))] + Legible(name, from + 1)
  }

  function Printable(c: u8): u8 {
    if 0x20 <= c < 0x7F then c else 0x3F
  }

  /** Sealing a block: fresh checksum, then magic. */
  function Sealed(b: Bytes): (r: Bytes)
    requires |b| > OFFSET_LAST
    ensures |r| == |b|
  {
    b[OFFSET_CHECKSUM := Checksum(b)][OFFSET_VALIDITY_MAGIC := VALIDITY_MAGIC]
  }

  lemma SealedIsValid(b: Bytes)
    requires |b| > OFFSET_LAST
    ensures IsValid(Sealed(b))
    ensures forall i | 0 <= i < |b| && i != OFFSET_CHECKSUM && i != OFFSET_VALIDITY_MAGIC :: Sealed(b)[i] == b[i]
  {
    assert Sealed(b)[OFFSET_CONSECUTIVE_COUNT..OFFSET_LAST + 1] == b[OFFSET_CONSECUTIVE_COUNT..OFFSET_LAST + 1];
  }

  /** `b` with one byte of the block replaced and resealed. */
  function WithByte(b: Bytes, offset: nat, value: u8): Bytes
    requires |b| > OFFSET_LAST && OFFSET_CONSECUTIVE_COUNT <= offset <= OFFSET_LAST
  {
    Sealed(b[offset := value])
  }

  /** The fields the boot decision reads and writes. */
  datatype Fields = Fields(consecutive: u8, cumulative: u8, snapshot: u8, deliberate: u8)

  function FieldsOf(b: Bytes): Fields
    requires |b| > OFFSET_LAST
  {
    Fields(b[OFFSET_CONSECUTIVE_COUNT], b[OFFSET_CUMULATIVE_COUNT], b[OFFSET_CUMULATIVE_SNAPSHOT], b[OFFSET_DELIBERATE])
  }

  /** The registers no counter update touches. */
  predicate Kept(b: Bytes, c: Bytes) {
    |b| == |c| == REGISTERS && c[..4] == b[..4] && c[OFFSET_REASON] == b[OFFSET_REASON]
  }

  lemma FieldsWritten(b: Bytes, offset: nat, value: u8)
    requires |b| == REGISTERS
    requires offset in
      {OFFSET_CONSECUTIVE_COUNT, OFFSET_CUMULATIVE_COUNT, OFFSET_CUMULATIVE_SNAPSHOT, OFFSET_DELIBERATE}
    ensures var c := WithByte(b, offset, value);
      && IsValid(c) && Kept(b, c)
      && FieldsOf(c) == (if offset == OFFSET_CONSECUTIVE_COUNT then FieldsOf(b).(consecutive := value)
                         else if offset == OFFSET_CUMULATIVE_COUNT then FieldsOf(b).(cumulative := value)
                         else if offset == OFFSET_CUMULATIVE_SNAPSHOT then FieldsOf(b).(snapshot := value)
                         else FieldsOf(b).(deliberate := value))
  {
    WithByteFields(b, offset, value);
  }

  lemma WithByteFields(b: Bytes, offset: nat, value: u8)
    requires |b| == REGISTERS && OFFSET_CONSECUTIVE_COUNT <= offset <= OFFSET_LAST
    ensures IsValid(WithByte(b, offset, value))
    ensures forall i | 0 <= i < |b| && i != OFFSET_CHECKSUM && i != OFFSET_VALIDITY_MAGIC ::
      WithByte(b, offset, value)[i] == if i == offset then value else b[i]
    ensures WithByte(b, offset, value)[..4] == b[..4]
  {
    SealedIsValid(b[offset := value]);
  }

  class Recovery {
    var vbtbkr: array<u8>
    ghost var stores: seq<Store>   // every register store, in order

    ghost predicate Ok()
      reads this
    {
      vbtbkr.Length == REGISTERS
    }

    constructor ()
      ensures Ok() && stores == [] && fresh(vbtbkr)
    {
      vbtbkr := new u8[REGISTERS];
      stores := [];
    }

    method StoreByte(offset: nat, value: u8)
      requires Ok() && offset < REGISTERS
      modifies vbtbkr, this`stores
      ensures vbtbkr[..] == Put(old(vbtbkr[..]), Store(offset, value))
      ensures stores == old(stores) + [Store(offset, value)]
    {
      vbtbkr[offset] := value;
      stores := stores + [Store(offset, value)];
    }

    method ComputeChecksum() returns (sum: u8)
      requires Ok()
      ensures sum == Checksum(vbtbkr[..])
    {
      ghost var block := vbtbkr[..][OFFSET_CONSECUTIVE_COUNT..OFFSET_LAST + 1];
      ghost var total: nat := 0;
      sum := 0;
      var offset := OFFSET_CONSECUTIVE_COUNT;
      while offset <= OFFSET_LAST
        invariant OFFSET_CONSECUTIVE_COUNT <= offset <= OFFSET_LAST + 1
        invariant total + Sum(block[offset - OFFSET_CONSECUTIVE_COUNT..]) == Sum(block)
        invariant sum == total % 256
      {
        var at := offset - OFFSET_CONSECUTIVE_COUNT;
        assert block[at..][1..] == block[at + 1..] && block[at] == vbtbkr[offset];
        Carries(total, vbtbkr[offset]);
        total := total + vbtbkr[offset];
        sum := (sum + vbtbkr[offset]) % 256;
        offset := offset + 1;
      }
      assert block[OFFSET_LAST + 1 - OFFSET_CONSECUTIVE_COUNT..] == [];
    }

    method Valid() returns (valid: bool)
      requires Ok()
      ensures valid == IsValid(vbtbkr[..])
    {
      if vbtbkr[OFFSET_VALIDITY_MAGIC] != VALIDITY_MAGIC { return false; }
      var sum := ComputeChecksum();
      return vbtbkr[OFFSET_CHECKSUM] == sum;
    }

    /** Fresh checksum, then magic. */
    method Seal()
      requires Ok()
      modifies vbtbkr, this`stores
      ensures vbtbkr[..] == Sealed(old(vbtbkr[..]))
      ensures stores == old(stores) +
        [Store(OFFSET_CHECKSUM, Checksum(old(vbtbkr[..]))), Store(OFFSET_VALIDITY_MAGIC, VALIDITY_MAGIC)]
    {
      var sum := ComputeChecksum();
      StoreByte(OFFSET_CHECKSUM, sum);
      StoreByte(OFFSET_VALIDITY_MAGIC, VALIDITY_MAGIC);
    }

    /** Every setter: the byte, then a seal, so the block reads as valid at once. */
    method WriteByte(offset: nat, value: u8)
      requires Ok() && OFFSET_CONSECUTIVE_COUNT <= offset <= OFFSET_LAST
      modifies vbtbkr, this`stores
      ensures vbtbkr[..] == WithByte(old(vbtbkr[..]), offset, value) && IsValid(vbtbkr[..])
      ensures vbtbkr[..4] == old(vbtbkr[..4])
    {
      StoreByte(offset, value);
      SealedIsValid(vbtbkr[..]);
      Seal();
    }

    // The setters the boot decision uses, by the fields they change.
    method SetConsecutiveCount(value: u8)
      requires Ok()
      modifies vbtbkr, this`stores
      ensures IsValid(vbtbkr[..]) && Kept(old(vbtbkr[..]), vbtbkr[..])
      ensures FieldsOf(vbtbkr[..]) == old(FieldsOf(vbtbkr[..])).(consecutive := value)
    {
      FieldsWritten(vbtbkr[..], OFFSET_CONSECUTIVE_COUNT, value);
      WriteByte(OFFSET_CONSECUTIVE_COUNT, value);
    }

    method SetCumulativeCount(value: u8)
      requires Ok()
      modifies vbtbkr, this`stores
      ensures IsValid(vbtbkr[..]) && Kept(old(vbtbkr[..]), vbtbkr[..])
      ensures FieldsOf(vbtbkr[..]) == old(FieldsOf(vbtbkr[..])).(cumulative := value)
    {
      FieldsWritten(vbtbkr[..], OFFSET_CUMULATIVE_COUNT, value);
      WriteByte(OFFSET_CUMULATIVE_COUNT, value);
    }

    method SetCumulativeSnapshot(value: u8)
      requires Ok()
      modifies vbtbkr, this`stores
      ensures IsValid(vbtbkr[..]) && Kept(old(vbtbkr[..]), vbtbkr[..])
      ensures FieldsOf(vbtbkr[..]) == old(FieldsOf(vbtbkr[..])).(snapshot := value)
    {
      FieldsWritten(vbtbkr[..], OFFSET_CUMULATIVE_SNAPSHOT, value);
      WriteByte(OFFSET_CUMULATIVE_SNAPSHOT, value);
    }

    method SetDeliberateReset(value: u8)
      requires Ok()
      modifies vbtbkr, this`stores
      ensures IsValid(vbtbkr[..]) && Kept(old(vbtbkr[..]), vbtbkr[..])
      ensures FieldsOf(vbtbkr[..]) == old(FieldsOf(vbtbkr[..])).(deliberate := value)
    {
      FieldsWritten(vbtbkr[..], OFFSET_DELIBERATE, value);
      WriteByte(OFFSET_DELIBERATE, value);
    }

    method Reinitialise()
      requires Ok()
      modifies vbtbkr, this`stores
      ensures IsValid(vbtbkr[..]) && vbtbkr[..4] == old(vbtbkr[..4])
      ensures forall i | OFFSET_CONSECUTIVE_COUNT <= i <= OFFSET_LAST :: vbtbkr[i] == 0
      ensures forall i | OFFSET_LAST < i < REGISTERS :: vbtbkr[i] == old(vbtbkr[i])
    {
      var offset := OFFSET_CONSECUTIVE_COUNT;
      while offset <= OFFSET_LAST
        invariant OFFSET_CONSECUTIVE_COUNT <= offset <= OFFSET_LAST + 1
        invariant forall i | OFFSET_CONSECUTIVE_COUNT <= i < offset :: vbtbkr[i] == 0
        invariant forall i | 0 <= i < REGISTERS && !(OFFSET_CONSECUTIVE_COUNT <= i < offset) ::
          vbtbkr[i] == old(vbtbkr[i])
      {
        StoreByte(offset, 0);
        offset := offset + 1;
      }
      SealedIsValid(vbtbkr[..]);
      Seal();
    }

    /** The name, zero-padded, then the phase, then one seal: a reset in between claims no fault. */
    method RecordFault(phase: u8, taskName: Option<Bytes>)
      requires Ok()
      modifies vbtbkr, this`stores
      ensures stores == old(stores) + FaultStores(old(vbtbkr[..]), phase, taskName)
      ensures vbtbkr[..] == PutAll(old(vbtbkr[..]), FaultStores(old(vbtbkr[..]), phase, taskName))
    {
      ghost var b := vbtbkr[..];
      var ended := taskName.None?;
      var i := 0;
      while i < FAULT_TASK_LEN
        invariant 0 <= i <= FAULT_TASK_LEN
        invariant !ended ==> taskName.Some? && i <= |taskName.value| && forall j | 0 <= j < i :: taskName.value[j] != 0
        invariant ended ==> forall j: nat | j >= i :: NameByte(taskName, j) == 0
        invariant stores == old(stores) + NameStores(taskName, i)
        invariant vbtbkr[..] == PutAll(b, NameStores(taskName, i))
      {
        // A name held in memory is read up to its NUL; past its end there is nothing but one.
        var c: u8 := if ended || i >= |taskName.value| then 0 else taskName.value[i];
        if c == 0 { ended := true; }
        assert c == NameByte(taskName, i);
        StoreByte(OFFSET_FAULT_TASK + i, c);
        PutOneMore(b, NameStores(taskName, i), Store(OFFSET_FAULT_TASK + i, c));
        assert NameStores(taskName, i + 1) == NameStores(taskName, i) + [Store(OFFSET_FAULT_TASK + i, c)];
        i := i + 1;
      }
      StoreByte(OFFSET_PHASE, phase);
      PutOneMore(b, NameStores(taskName, FAULT_TASK_LEN), Store(OFFSET_PHASE, phase));
      Seal();
      SealedFault(b, phase, taskName, old(stores));
    }

    /** The stored name, for a reader: what is printable of it, and '?' for the rest. */
    method GetFaultTask() returns (out: Bytes)
      requires Ok()
      ensures out == if IsValid(vbtbkr[..]) then StoredName(vbtbkr[..], 0) else []
    {
      out := [];
      var valid := Valid();
      if valid {
        ghost var b := vbtbkr[..];
        while |out| < FAULT_TASK_LEN
          invariant |out| <= FAULT_TASK_LEN
          invariant StoredName(b, 0) == out + StoredName(b, |out|)
        {
          var c := vbtbkr[OFFSET_FAULT_TASK + |out|];
          if c == 0 { break; }
          Rejoin(out, [Printable(c)], StoredName(b, |out| + 1));
          out := out + [Printable(c)];
        }
      }
    }

    /** Takes the marker a chosen reset left behind: read, then cleared. */
    method ConsumeDeliberateReset() returns (marker: u8)
      requires Ok()
      modifies vbtbkr, this`stores
      ensures marker == if IsValid(old(vbtbkr[..])) then old(vbtbkr[OFFSET_DELIBERATE]) else 0
      ensures marker == 0 ==> vbtbkr[..] == old(vbtbkr[..])
      ensures IsValid(old(vbtbkr[..])) ==>
        (IsValid(vbtbkr[..]) && Kept(old(vbtbkr[..]), vbtbkr[..]) &&
         FieldsOf(vbtbkr[..]) == old(FieldsOf(vbtbkr[..])).(deliberate := 0))
    {
      marker := 0;
      var valid := Valid();
      if valid {
        marker := vbtbkr[OFFSET_DELIBERATE];
      }
      if marker != 0 {
        SetDeliberateReset(0);
      }
    }
  }

  // -------------------------------------------------------------------------
  // Recording a fault, store by store
  // -------------------------------------------------------------------------

  /** The stores that write the name's first `n` bytes. */
  function NameStores(name: Option<Bytes>, n: nat): (ss: seq<Store>)
    ensures |ss| == n && forall i | 0 <= i < n :: ss[i] == Store(OFFSET_FAULT_TASK + i, NameByte(name, i))
  {
    seq(n, i requires 0 <= i => Store(OFFSET_FAULT_TASK + i, NameByte(name, i)))
  }

  function FaultStores(b: Bytes, phase: u8, name: Option<Bytes>): (ss: seq<Store>)
    requires |b| > OFFSET_LAST
    ensures |ss| == FAULT_TASK_LEN + 3
  {
    var named := NameStores(name, FAULT_TASK_LEN) + [Store(OFFSET_PHASE, phase)];
    named + [Store(OFFSET_CHECKSUM, Checksum(PutAll(b, named))), Store(OFFSET_VALIDITY_MAGIC, VALIDITY_MAGIC)]
  }

  /** Sealing after the name and the phase completes the listed stores. */
  lemma SealedFault(b: Bytes, phase: u8, name: Option<Bytes>, past: seq<Store>)
    requires |b| > OFFSET_LAST
    ensures var named := NameStores(name, FAULT_TASK_LEN);
      var mid := Put(PutAll(b, named), Store(OFFSET_PHASE, phase));
      && PutAll(b, FaultStores(b, phase, name)) == Sealed(mid)
      && past + FaultStores(b, phase, name) == past + named + [Store(OFFSET_PHASE, phase)] +
           [Store(OFFSET_CHECKSUM, Checksum(mid)), Store(OFFSET_VALIDITY_MAGIC, VALIDITY_MAGIC)]
  {
    var named := NameStores(name, FAULT_TASK_LEN);
    var phased := named + [Store(OFFSET_PHASE, phase)];
    PutOneMore(b, named, Store(OFFSET_PHASE, phase));
    var mid := PutAll(b, phased);
    var seal := [Store(OFFSET_CHECKSUM, Checksum(mid)), Store(OFFSET_VALIDITY_MAGIC, VALIDITY_MAGIC)];
    SealIsStores(mid);
    PutConcat(b, phased, seal);
    Appended(past, named, [Store(OFFSET_PHASE, phase)], seal);
  }

  lemma Appended(past: seq<Store>, a: seq<Store>, b: seq<Store>, c: seq<Store>)
    ensures past + (a + b + c) == past + a + b + c
  {
  }

  lemma SealIsStores(b: Bytes)
    requires |b| > OFFSET_LAST
    ensures PutAll(b, [Store(OFFSET_CHECKSUM, Checksum(b)), Store(OFFSET_VALIDITY_MAGIC, VALIDITY_MAGIC)]) == Sealed(b)
  {
    var magic := Store(OFFSET_VALIDITY_MAGIC, VALIDITY_MAGIC);
    TwoStores(b, Store(OFFSET_CHECKSUM, Checksum(b)), magic);
  }

  lemma TwoStores(b: Bytes, x: Store, y: Store)
    ensures PutAll(b, [x, y]) == Put(Put(b, x), y)
  {
    assert [x, y][1..] == [y] && [y][1..] == [];
    assert PutAll(b, [x, y]) == PutAll(Put(b, x), [y]);
  }

  lemma Rejoin(a: Bytes, b: Bytes, c: Bytes)
    ensures a + (b + c) == (a + b) + c
  {
  }

  function StoredName(b: Bytes, from: nat): Bytes
    requires |b| > OFFSET_LAST
    decreases FAULT_TASK_LEN - from
  {
    if from >= FAULT_TASK_LEN || b[OFFSET_FAULT_TASK + from] == 0 then []
    else [Printable(b[OFFSET_FAULT_TASK + from])] + StoredName(b, from + 1)
  }

  predicate HoldsName(b: Bytes, name: Option<Bytes>)
    requires |b| > OFFSET_LAST
  {
    forall i | 0 <= i < FAULT_TASK_LEN :: b[OFFSET_FAULT_TASK + i] == NameByte(name, i)
  }

  /** What the first `n` name stores leave: the name so far, and nothing else touched. */
  lemma {:induction false} NamesPut(b: Bytes, name: Option<Bytes>, n: nat)
    requires |b| > OFFSET_LAST && n <= FAULT_TASK_LEN
    ensures var r := PutAll(b, NameStores(name, n));
      && (forall i | 0 <= i < n :: r[OFFSET_FAULT_TASK + i] == NameByte(name, i))
      && (forall i | 0 <= i < |b| && !(OFFSET_FAULT_TASK <= i < OFFSET_FAULT_TASK + n) :: r[i] == b[i])
  {
    if n > 0 {
      NamesPut(b, name, n - 1);
      var last := Store(OFFSET_FAULT_TASK + n - 1, NameByte(name, n - 1));
      PutOneMore(b, NameStores(name, n - 1), last);
      assert NameStores(name, n) == NameStores(name, n - 1) + [last];
    }
  }

  /**
   A reset between any two of its register stores never claims a fault without the whole
   name: the phase is what it was, or it is the fault's and the name is complete. And the
   registers that are not this firmware's are untouched throughout.
  */
  lemma FaultRecordIsAllOrNothing(b: Bytes, phase: u8, name: Option<Bytes>, k: nat)
    requires |b| > OFFSET_LAST && k <= FAULT_TASK_LEN + 3
    ensures var r := PutAll(b, FaultStores(b, phase, name)[..k]);
      && (r[OFFSET_PHASE] == b[OFFSET_PHASE] || (r[OFFSET_PHASE] == phase && HoldsName(r, name)))
      && (k > FAULT_TASK_LEN ==> r[OFFSET_PHASE] == phase && HoldsName(r, name))
      && r[..4] == b[..4]
  {
    if k <= FAULT_TASK_LEN {
      NamesFirst(b, phase, name, k);
    } else {
      var seal := FaultPrefix(b, phase, name, k);
      AllNamed(b, phase, name, seal);
    }
  }

  lemma NamesFirst(b: Bytes, phase: u8, name: Option<Bytes>, k: nat)
    requires |b| > OFFSET_LAST && k <= FAULT_TASK_LEN
    ensures var r := PutAll(b, FaultStores(b, phase, name)[..k]); r[OFFSET_PHASE] == b[OFFSET_PHASE] && r[..4] == b[..4]
  {
    var names := NameStores(name, FAULT_TASK_LEN);
    var mid := PutAll(b, names + [Store(OFFSET_PHASE, phase)]);
    PrefixOfFirst(names, [Store(OFFSET_PHASE, phase)],
                  [Store(OFFSET_CHECKSUM, Checksum(mid)), Store(OFFSET_VALIDITY_MAGIC, VALIDITY_MAGIC)], k);
    assert names[..k] == NameStores(name, k);
    NamesPut(b, name, k);
  }

  lemma PrefixOfFirst(a: seq<Store>, b: seq<Store>, c: seq<Store>, k: nat)
    requires k <= |a|
    ensures (a + b + c)[..k] == a[..k]
  {
  }

  lemma FaultPrefix(b: Bytes, phase: u8, name: Option<Bytes>, k: nat) returns (seal: seq<Store>)
    requires |b| > OFFSET_LAST && FAULT_TASK_LEN < k <= FAULT_TASK_LEN + 3
    ensures FaultStores(b, phase, name)[..k] ==
      NameStores(name, FAULT_TASK_LEN) + ([Store(OFFSET_PHASE, phase)] + seal)
    ensures forall i | 0 <= i < |seal| :: seal[i].offset == OFFSET_CHECKSUM || seal[i].offset == OFFSET_VALIDITY_MAGIC
  {
    var names := NameStores(name, FAULT_TASK_LEN);
    var full := [Store(OFFSET_CHECKSUM, Checksum(PutAll(b, names + [Store(OFFSET_PHASE, phase)]))),
                 Store(OFFSET_VALIDITY_MAGIC, VALIDITY_MAGIC)];
    seal := full[..k - FAULT_TASK_LEN - 1];
    CutTail(names, Store(OFFSET_PHASE, phase), full, k);
  }

  lemma CutTail(names: seq<Store>, phase: Store, seal: seq<Store>, k: nat)
    requires |names| < k <= |names| + 1 + |seal|
    ensures (names + [phase] + seal)[..k] == names + ([phase] + seal[..k - |names| - 1])
  {
  }

  /** With the name and the phase in, the stores that follow touch neither. */
  lemma AllNamed(b: Bytes, phase: u8, name: Option<Bytes>, seal: seq<Store>)
    requires |b| > OFFSET_LAST
    requires forall i | 0 <= i < |seal| :: seal[i].offset == OFFSET_CHECKSUM || seal[i].offset == OFFSET_VALIDITY_MAGIC
    ensures var r := PutAll(b, NameStores(name, FAULT_TASK_LEN) + ([Store(OFFSET_PHASE, phase)] + seal));
      r[OFFSET_PHASE] == phase && HoldsName(r, name) && r[..4] == b[..4]
  {
    var names := NameStores(name, FAULT_TASK_LEN);
    var rest := [Store(OFFSET_PHASE, phase)] + seal;
    NamesPut(b, name, FAULT_TASK_LEN);
    PutConcat(b, names, rest);
    assert rest[1..] == seal;
    SealStoresKeep(Put(PutAll(b, names), Store(OFFSET_PHASE, phase)), seal);
  }

  lemma {:induction false} SealStoresKeep(b: Bytes, ss: seq<Store>)
    requires forall i | 0 <= i < |ss| :: ss[i].offset == OFFSET_CHECKSUM || ss[i].offset == OFFSET_VALIDITY_MAGIC
    ensures forall i | 0 <= i < |b| && i != OFFSET_CHECKSUM && i != OFFSET_VALIDITY_MAGIC :: PutAll(b, ss)[i] == b[i]
    decreases |ss|
  {
    if ss != [] {
      SealStoresKeep(Put(b, ss[0]), ss[1..]);
    }
  }

  lemma {:induction false} NameReadsBack(b: Bytes, name: Option<Bytes>, from: nat)
    requires |b| > OFFSET_LAST && HoldsName(b, name)
    ensures StoredName(b, from) == Legible(name, from)
    decreases FAULT_TASK_LEN - from
  {
    if from < FAULT_TASK_LEN {
      NameReadsBack(b, name, from + 1);
    }
  }

  /** Where a name is read to: 15 bytes, its end or its first NUL, whichever comes first. */
  predicate EndsAt(name: Bytes, n: nat) {
    && n <= 15 && n <= |name| && (forall i | 0 <= i < n :: name[i] != 0)
    && (n < 15 && n < |name| ==> name[n] == 0)
  }

  lemma {:induction false} LegibleBytes(name: Bytes, from: nat, n: nat)
    requires EndsAt(name, n) && from <= n
    ensures |Legible(Some(name), from)| == n - from
    ensures forall i | from <= i < n ::
      Legible(Some(name), from)[i - from] == if 32 <= name[i] <= 126 then name[i] else '?' as int
    decreases n - from
  {
    if from < n {
      LegibleBytes(name, from + 1, n);
      assert NameByte(Some(name), from) == name[from] != 0;
      var rest := Legible(Some(name), from + 1);
      assert Legible(Some(name), from) == [Printable(name[from])] + rest;
    } else {
      assert NameByte(Some(name), n) == 0 || n >= FAULT_TASK_LEN;
    }
  }

  /**
   A completed record leaves a valid block from which the name reads back: cut at 15 bytes
   or its NUL, each byte that is not printable ASCII as a question mark.
  */
  lemma FaultNameRoundTrip(b: Bytes, phase: u8, name: Option<Bytes>, n: nat)
    requires |b| > OFFSET_LAST && (if name.Some? then EndsAt(name.value, n) else n == 0)
    ensures var r := PutAll(b, FaultStores(b, phase, name));
      && IsValid(r) && r[OFFSET_PHASE] == phase
      && |StoredName(r, 0)| == n
      && forall i | 0 <= i < n ::
           StoredName(r, 0)[i] == if 32 <= name.value[i] <= 126 then name.value[i] else '?' as int
  {
    FaultNameIsLegible(b, phase, name);
    if name.Some? {
      LegibleBytes(name.value, 0, n);
    }
  }

  lemma FaultNameIsLegible(b: Bytes, phase: u8, name: Option<Bytes>)
    requires |b| > OFFSET_LAST
    ensures var r := PutAll(b, FaultStores(b, phase, name));
      IsValid(r) && r[OFFSET_PHASE] == phase && StoredName(r, 0) == Legible(name, 0)
  {
    var all := FaultStores(b, phase, name);
    assert all[..|all|] == all;
    FaultRecordIsAllOrNothing(b, phase, name, |all|);
    var named := NameStores(name, FAULT_TASK_LEN) + [Store(OFFSET_PHASE, phase)];
    var mid := PutAll(b, named);
    PutConcat(b, named, all[|named|..]);
    assert all == named + all[|named|..];
    SealIsStores(mid);
    SealedIsValid(mid);
    NameReadsBack(PutAll(b, all), name, 0);
  }
}
