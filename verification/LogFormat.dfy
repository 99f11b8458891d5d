/**
 The log's on-disk format: ArduPilot DataFlash records, and the preamble every opening of a
 file writes. The head TIME record sits at a fixed offset, where a listing reads it.
*/
module LogFormat {
  import opened Cards

  const HEAD1: u8 := 0xA3
  const HEAD2: u8 := 0x95
  const MSG_FMT: u8 := 128
  const MSG_TIME: u8 := 129
  const MSG_SYS: u8 := 130
  const MSG_PWR: u8 := 131
  const MSG_RST: u8 := 132

  type u16 = x: int | 0 <= x < 0x1_0000
  type u32 = x: int | 0 <= x < 0x1_0000_0000
  type u64 = x: int | 0 <= x < 0x1_0000_0000_0000_0000
  type i8 = x: int | -0x80 <= x < 0x80

  /** SystemTime's sources; a lower number is a better one. */
  datatype Source = Ground | Ds1307 | Survived | NoSource {
    function Rank(): (r: u8) {
      match this case Ground => 0 case Ds1307 => 1 case Survived => 2 case NoSource => 3
    }
  }

  function Pow256(k: nat): pos {
    if k == 0 then 1 else 256 * Pow256(k - 1)
  }

  /** Byte `i` of a number, the lowest being byte 0. */
  function ByteOf(v: nat, i: nat): u8 {
    if i == 0 then v % 256 else ByteOf(v / 256, i - 1)
  }

  function LittleEndian(v: nat, k: nat): (b: Bytes)
    ensures |b| == k
  {
    seq(k, i requires 0 <= i => ByteOf(v, i))
  }

  lemma LowestByteFirst(v: nat, k: nat)
    requires k > 0
    ensures LittleEndian(v, k) == [v % 256] + LittleEndian(v / 256, k - 1)
  {
  }

  function FromLittleEndian(b: Bytes): nat {
    if b == [] then 0 else b[0] + 256 * FromLittleEndian(b[1..])
  }

  lemma {:induction false} LittleEndianRoundTrip(v: nat, k: nat)
    requires v < Pow256(k)
    ensures FromLittleEndian(LittleEndian(v, k)) == v
  {
    if k > 0 {
      LittleEndianRoundTrip(v / 256, k - 1);
      LowestByteFirst(v, k);
      assert LittleEndian(v, k)[1..] == LittleEndian(v / 256, k - 1);
    }
  }

  function Ascii(s: string): (b: Bytes)
    ensures |b| == |s|
  {
    seq(|s|, i requires 0 <= i < |s| => s[i] as int % 256)
  }

  /** A fixed-width field: cut, or padded with NUL. */
  function Field(b: Bytes, width: nat): (f: Bytes)
    ensures |f| == width
  {
    if |b| >= width then b[..width] else b + seq(width - |b|, _ => 0)
  }

  /** A FMT record's content: the layout of one type of record. Columns are separated by commas. */
  datatype Definition = Definition(kind: u8, length: u8, name: string, format: string, columns: seq<string>)

  function Join(columns: seq<string>): string {
    if columns == [] then "" else if |columns| == 1 then columns[0] else columns[0] + "," + Join(columns[1..])
  }

  function FormatRecord(d: Definition): (b: Bytes)
    ensures |b| == 89 && b[..3] == [HEAD1, HEAD2, MSG_FMT]
  {
    [HEAD1, HEAD2, MSG_FMT, d.kind, d.length]
      + Field(Ascii(d.name), 4) + Field(Ascii(d.format), 16) + Field(Ascii(Join(d.columns)), 64)
  }

  function FmtDefinition(): Definition {
    Definition(MSG_FMT, 89, "FMT", "BBnNZ", ["Type", "Length", "Name", "Format", "Columns"])
  }

  function TimeDefinition(): Definition {
    Definition(MSG_TIME, 16, "TIME", "QIB", ["TimeUS", "Unix", "Src"])
  }

  function SysDefinition(): Definition {
    Definition(MSG_SYS, 27, "SYS", "QHHHHHHHH", ["TimeUS", "Heap", "Log", "SdW", "Mav", "SRd", "SWr", "URd", "UWr"])
  }

  function PwrDefinition(): Definition {
    Definition(MSG_PWR, 14, "PWR", "QHb", ["TimeUS", "mV", "Pct"])
  }

  /** RST's follows the head TIME record instead, so that the preamble keeps its length. */
  function ResetDefinition(): Definition {
    Definition(MSG_RST, 31, "RST", "QBBBBN", ["TimeUS", "Rsn", "Phase", "Cons", "Cum", "Task"])
  }

  lemma HeadOfFour(a: Bytes, b: Bytes, c: Bytes, d: Bytes)
    requires |a| >= 3
    ensures |a + b + c + d| == |a| + |b| + |c| + |d| && (a + b + c + d)[..3] == a[..3]
  {
  }

  /** The constant part: four format definitions. */
  function Preamble(): (b: Bytes)
    ensures |b| == 356 && b[..3] == [HEAD1, HEAD2, MSG_FMT]
  {
    HeadOfFour(FormatRecord(FmtDefinition()), FormatRecord(TimeDefinition()),
               FormatRecord(SysDefinition()), FormatRecord(PwrDefinition()));
    FormatRecord(FmtDefinition()) + FormatRecord(TimeDefinition())
      + FormatRecord(SysDefinition()) + FormatRecord(PwrDefinition())
  }

  function ResetFormat(): Bytes {
    FormatRecord(ResetDefinition())
  }

  function TimeRecord(timeUs: u64, unix: u32, source: Source): (b: Bytes)
    ensures |b| == 16
  {
    [HEAD1, HEAD2, MSG_TIME] + LittleEndian(timeUs, 8) + LittleEndian(unix, 4) + [source.Rank()]
  }

  /** Why the running boot began. */
  datatype Reset = Reset(timeUs: u64, reason: u8, phase: u8, consecutive: u8, cumulative: u8, task: Bytes)

  const STACK_OVERFLOW_FAULT: u8 := 7
  const MALLOC_FAILED_FAULT: u8 := 8

  /** The task's name is recorded only when the previous boot ended in a fault hook. */
  function ResetRecord(r: Reset): (b: Bytes)
    ensures |b| == 31
  {
    var faulted := r.phase == STACK_OVERFLOW_FAULT || r.phase == MALLOC_FAILED_FAULT;
    [HEAD1, HEAD2, MSG_RST] + LittleEndian(r.timeUs, 8) + [r.reason, r.phase, r.consecutive, r.cumulative]
      + Field(if faulted then r.task else [], 16)
  }

  /** What a file's opening finds: the clock, its source, and why this boot began. */
  datatype Opening = Opening(timeUs: u64, unix: u32, source: Source, reset: Reset)

  /** The chunks an opening writes, each synced on its own. */
  function OpeningChunks(o: Opening): seq<Bytes> {
    [Preamble(), TimeRecord(o.timeUs, o.unix, o.source), ResetFormat(), ResetRecord(o.reset)]
  }

  datatype Record =
    | SysLog(timeUs: u64, heapFree: u16, stacks: seq<u16>)
    | PwrLog(timeUs: u64, millivolts: u16, remaining: i8)
    | TimeLog(timeUs: u64, unix: u32, source: Source)

  function Words(ws: seq<u16>): (b: Bytes)
    ensures |b| == 2 * |ws|
  {
    if ws == [] then [] else LittleEndian(ws[0], 2) + Words(ws[1..])
  }

  /** A log record as written; SYS holds exactly seven stack marks. */
  function EncodeRecord(r: Record): (b: Bytes)
    requires r.SysLog? ==> |r.stacks| == 7
    ensures |b| == match r case SysLog(_, _, _) => 27 case PwrLog(_, _, _) => 14 case TimeLog(_, _, _) => 16
  {
    match r
    case SysLog(t, heap, stacks) => [HEAD1, HEAD2, MSG_SYS] + LittleEndian(t, 8) + LittleEndian(heap, 2) + Words(stacks)
    case PwrLog(t, mv, pct) =>
      [HEAD1, HEAD2, MSG_PWR] + LittleEndian(t, 8) + LittleEndian(mv, 2) + [if pct < 0 then pct + 256 else pct]
    case TimeLog(t, unix, source) => TimeRecord(t, unix, source)
  }

  // -------------------------------------------------------------------------
  // Reading the head TIME record back
  // -------------------------------------------------------------------------

  const HEAD_TIME_OFFSET: nat := 356

  /** The unix time a head record carries; 0 if it is no TIME record or has no source. */
  function HeadTime(head: Bytes): nat
    requires |head| == 16
  {
    if head[..3] != [HEAD1, HEAD2, MSG_TIME] || head[15] == NoSource.Rank() then 0
    else FromLittleEndian(head[11..15])
  }

  /** What a listing reports as `time_utc`. */
  function SlotTimeUtc(c: Card, slot: nat): nat {
    var file := Content(c, slot);
    if |file| < HEAD_TIME_OFFSET + 16 then 0 else HeadTime(file[HEAD_TIME_OFFSET..HEAD_TIME_OFFSET + 16])
  }

  lemma HeadTimeOfRecord(timeUs: u64, unix: u32, source: Source)
    ensures HeadTime(TimeRecord(timeUs, unix, source)) == if source == NoSource then 0 else unix
  {
    var b := TimeRecord(timeUs, unix, source);
    assert b[..3] == [HEAD1, HEAD2, MSG_TIME];
    assert b[11..15] == LittleEndian(unix, 4);
    assert Pow256(4) == 0x1_0000_0000 by { assert Pow256(2) == 65536; }
    LittleEndianRoundTrip(unix, 4);
  }
}
