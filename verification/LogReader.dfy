/**
 What a reader that knows only the layout of FMT records makes of a log: the definitions in
 the preamble tell it where every field of every record is.
*/
module LogReader {
  import opened Cards
  import opened LogFormat

  // -------------------------------------------------------------------------
  // The reader
  // -------------------------------------------------------------------------

  /** How many bytes a field takes, by its format character. */
  function Width(c: char): nat {
    if c == 'B' || c == 'b' then 1 else if c == 'H' then 2 else if c == 'I' || c == 'n' then 4
    else if c == 'Q' then 8 else if c == 'N' then 16 else if c == 'Z' then 64 else 0
  }

  /** Where field `i` starts, after the three bytes every record begins with. */
  function Start(format: string, i: nat): nat
    requires i <= |format|
  {
    if i == 0 then 3 else Start(format, i - 1) + Width(format[i - 1])
  }

  function Position(columns: seq<string>, column: string): nat {
    if columns == [] || columns[0] == column then 0 else 1 + Position(columns[1..], column)
  }

  /** The bytes of a labelled field. */
  function FieldBytes(d: Definition, record: Bytes, column: string): Bytes {
    var i := Position(d.columns, column);
    if i < |d.format| && Start(d.format, i) <= Start(d.format, i + 1) <= |record|
    then record[Start(d.format, i)..Start(d.format, i + 1)] else []
  }

  /** A labelled number; only 'b' is signed. */
  function Number(d: Definition, record: Bytes, column: string): int {
    var i := Position(d.columns, column);
    var n := FromLittleEndian(FieldBytes(d, record, column));
    if i < |d.format| && d.format[i] == 'b' && n >= 128 then n - 256 else n
  }

  /** Text in a field: up to its end or a NUL. */
  function Text(b: Bytes): string {
    if b == [] || b[0] == 0 then "" else [b[0] as char] + Text(b[1..])
  }

  function Split(text: string): (columns: seq<string>)
    ensures columns != []
  {
    if text == "" then [""]
    else
      var rest := Split(text[1..]);
      if text[0] == ',' then [""] + rest else [[text[0]] + rest[0]] + rest[1..]
  }

  function ReadDefinition(b: Bytes): Definition
    requires |b| == 89
  {
    Definition(b[3], b[4], Text(b[5..9]), Text(b[9..25]), Split(Text(b[25..89])))
  }

  /** The definition of a type of record, among FMT records that follow one another. */
  function FindDefinition(b: Bytes, kind: u8): Option<Definition> {
    if |b| < 89 || b[..3] != [HEAD1, HEAD2, MSG_FMT] then None
    else if b[3] == kind then Some(ReadDefinition(b[..89]))
    else FindDefinition(b[89..], kind)
  }

  // -------------------------------------------------------------------------
  // Definitions read back
  // -------------------------------------------------------------------------

  predicate Plain(s: string) {
    s == "" || (0 < s[0] as int < 128 && Plain(s[1..]))
  }

  predicate CommaFree(s: string) {
    s == "" || (s[0] != ',' && CommaFree(s[1..]))
  }

  predicate WellFormed(d: Definition) {
    && Plain(d.name) && |d.name| <= 4 && Plain(d.format) && |d.format| <= 16
    && d.columns != [] && |Join(d.columns)| <= 64
    && forall i | 0 <= i < |d.columns| :: Plain(d.columns[i]) && CommaFree(d.columns[i])
  }

  lemma {:induction false} TextOfPadded(s: string, zeros: Bytes)
    requires Plain(s) && (zeros == [] || zeros[0] == 0)
    ensures Text(Ascii(s) + zeros) == s
  {
    var b := Ascii(s) + zeros;
    if s != "" {
      assert b[0] == s[0] as int;
      assert b[1..] == Ascii(s[1..]) + zeros;
      TextOfPadded(s[1..], zeros);
      assert [s[0]] + s[1..] == s;
    }
  }

  lemma TextOfField(s: string, width: nat)
    requires Plain(s) && |s| <= width
    ensures Text(Field(Ascii(s), width)) == s
  {
    if |s| == width {
      assert Field(Ascii(s), width) == Ascii(s) + [];
      TextOfPadded(s, []);
    } else {
      TextOfPadded(s, seq(width - |s|, _ => 0));
    }
  }

  lemma {:induction false} PlainConcat(a: string, b: string)
    requires Plain(a) && Plain(b)
    ensures Plain(a + b)
  {
    if a == "" {
      assert a + b == b;
    } else {
      PlainConcat(a[1..], b);
      assert (a + b)[1..] == a[1..] + b;
    }
  }

  lemma {:induction false} JoinIsShort(columns: seq<string>, width: nat)
    requires forall i | 0 <= i < |columns| :: |columns[i]| <= width
    ensures |Join(columns)| <= |columns| * (width + 1)
  {
    if |columns| > 1 { JoinIsShort(columns[1..], width); }
  }

  lemma {:induction false} JoinIsPlain(columns: seq<string>)
    requires forall i | 0 <= i < |columns| :: Plain(columns[i])
    ensures Plain(Join(columns))
  {
    if |columns| > 1 {
      JoinIsPlain(columns[1..]);
      PlainConcat(columns[0], ",");
      PlainConcat(columns[0] + ",", Join(columns[1..]));
    }
  }

  lemma {:induction false} SplitFirst(column: string, rest: string)
    requires CommaFree(column)
    ensures Split(column) == [column]
    ensures Split(column + "," + rest) == [column] + Split(rest)
  {
    var text := column + "," + rest;
    if column == "" {
      assert text[1..] == rest;
    } else {
      assert text[0] == column[0] && text[1..] == column[1..] + "," + rest;
      SplitFirst(column[1..], rest);
      assert [column[0]] + column[1..] == column;
    }
  }

  lemma {:induction false} SplitOfJoin(columns: seq<string>)
    requires columns != [] && forall i | 0 <= i < |columns| :: CommaFree(columns[i])
    ensures Split(Join(columns)) == columns
  {
    if |columns| == 1 {
      SplitFirst(columns[0], "");
    } else {
      SplitOfJoin(columns[1..]);
      SplitFirst(columns[0], Join(columns[1..]));
      assert [columns[0]] + columns[1..] == columns;
    }
  }

  lemma DefinitionReadsBack(d: Definition)
    requires WellFormed(d)
    ensures ReadDefinition(FormatRecord(d)) == d
  {
    var b := FormatRecord(d);
    FormatRecordParts(d);
    TextOfField(d.name, 4);
    TextOfField(d.format, 16);
    JoinIsPlain(d.columns);
    TextOfField(Join(d.columns), 64);
    SplitOfJoin(d.columns);
  }

  lemma FormatRecordParts(d: Definition)
    ensures var b := FormatRecord(d);
      && b[3] == d.kind && b[4] == d.length && b[5..9] == Field(Ascii(d.name), 4)
      && b[9..25] == Field(Ascii(d.format), 16) && b[25..89] == Field(Ascii(Join(d.columns)), 64)
  {
  }

  predicate WordsOk(columns: seq<string>) {
    columns == [] || (Plain(columns[0]) && CommaFree(columns[0]) && |columns[0]| <= 6 && WordsOk(columns[1..]))
  }

  lemma {:induction false} WordsAreOk(columns: seq<string>)
    requires WordsOk(columns)
    ensures forall i | 0 <= i < |columns| :: Plain(columns[i]) && CommaFree(columns[i]) && |columns[i]| <= 6
  {
    if columns != [] { WordsAreOk(columns[1..]); }
  }

  lemma {:induction false} WordsConcat(a: seq<string>, b: seq<string>)
    requires WordsOk(a) && WordsOk(b)
    ensures WordsOk(a + b)
  {
    if a == [] {
      assert a + b == b;
    } else {
      WordsConcat(a[1..], b);
      assert (a + b)[1..] == a[1..] + b;
    }
  }

  lemma WordsReadBack(d: Definition)
    requires WordsOk(d.columns) && 0 < |d.columns| <= 9
    requires Plain(d.name) && |d.name| <= 4 && Plain(d.format) && |d.format| <= 16
    ensures ReadDefinition(FormatRecord(d)) == d
  {
    WordsAreOk(d.columns);
    JoinIsShort(d.columns, 6);
    DefinitionReadsBack(d);
  }

  lemma TimeReadsBack()
    ensures ReadDefinition(FormatRecord(TimeDefinition())) == TimeDefinition()
  {
    assert Plain("TIME") && Plain("QIB");
    assert WordsOk(["TimeUS", "Unix", "Src"]);
    WordsReadBack(TimeDefinition());
  }

  lemma SysReadsBack()
    ensures ReadDefinition(FormatRecord(SysDefinition())) == SysDefinition()
  {
    assert Plain("SYS") && Plain("QHHHHHHHH");
    SysWords();
    WordsReadBack(SysDefinition());
  }

  lemma SysWords()
    ensures WordsOk(SysDefinition().columns)
  {
    var (a, b, c) := (["TimeUS", "Heap"], ["Log", "SdW", "Mav"], ["SRd", "SWr"]);
    FirstSysWords();
    MoreSysWords();
    LastSysWords();
    WordsConcat(a, b);
    WordsConcat(a + b, c);
    WordsConcat(a + b + c, ["URd", "UWr"]);
    assert SysDefinition().columns == a + b + c + ["URd", "UWr"];
  }

  lemma FirstSysWords()
    ensures WordsOk(["TimeUS", "Heap"])
  {
  }

  lemma MoreSysWords()
    ensures WordsOk(["Log", "SdW", "Mav"])
  {
  }

  lemma LastSysWords()
    ensures WordsOk(["SRd", "SWr"]) && WordsOk(["URd", "UWr"])
  {
  }

  lemma PwrReadsBack()
    ensures ReadDefinition(FormatRecord(PwrDefinition())) == PwrDefinition()
  {
    assert Plain("PWR") && Plain("QHb");
    assert WordsOk(["TimeUS", "mV", "Pct"]);
    WordsReadBack(PwrDefinition());
  }

  lemma ResetReadsBack()
    ensures ReadDefinition(FormatRecord(ResetDefinition())) == ResetDefinition()
  {
    assert Plain("RST") && Plain("QBBBBN");
    ResetWords();
    WordsReadBack(ResetDefinition());
  }

  lemma ResetWords()
    ensures WordsOk(ResetDefinition().columns)
  {
    var (a, b, c) := (["TimeUS", "Rsn"], ["Phase", "Cons"], ["Cum", "Task"]);
    assert WordsOk(a) && WordsOk(b) && WordsOk(c);
    WordsConcat(a, b);
    WordsConcat(a + b, c);
    assert ResetDefinition().columns == a + b + c;
  }

  /** One FMT record ahead of others: found if it is of the type looked for, passed over if not. */
  lemma FindAmong(d: Definition, rest: Bytes, kind: u8)
    ensures FindDefinition(FormatRecord(d) + rest, kind) ==
      if d.kind == kind then Some(ReadDefinition(FormatRecord(d))) else FindDefinition(rest, kind)
  {
    var b := FormatRecord(d) + rest;
    assert b[..89] == FormatRecord(d) && b[89..] == rest;
    assert b[..3] == FormatRecord(d)[..3] && b[3] == FormatRecord(d)[3] == d.kind;
  }

  /** The preamble defines the three types of log record, as their definitions have them. */
  lemma PreambleDefines()
    ensures FindDefinition(Preamble(), MSG_TIME) == Some(TimeDefinition())
    ensures FindDefinition(Preamble(), MSG_SYS) == Some(SysDefinition())
    ensures FindDefinition(Preamble(), MSG_PWR) == Some(PwrDefinition())
  {
    var (f, t, s, p) := (FormatRecord(FmtDefinition()), FormatRecord(TimeDefinition()),
                         FormatRecord(SysDefinition()), FormatRecord(PwrDefinition()));
    Regrouped(f, t, s, p);
    TimeReadsBack();
    SysReadsBack();
    PwrReadsBack();
    PreambleOfParts(MSG_TIME);
    PreambleOfParts(MSG_SYS);
    PreambleOfParts(MSG_PWR);
  }

  lemma Regrouped(f: Bytes, t: Bytes, s: Bytes, p: Bytes)
    ensures f + t + s + p == f + (t + (s + (p + [])))
  {
  }

  lemma PreambleOfParts(kind: u8)
    requires kind != MSG_FMT
    ensures FindDefinition(Preamble(), kind) ==
      if kind == MSG_TIME then Some(ReadDefinition(FormatRecord(TimeDefinition())))
      else if kind == MSG_SYS then Some(ReadDefinition(FormatRecord(SysDefinition())))
      else if kind == MSG_PWR then Some(ReadDefinition(FormatRecord(PwrDefinition())))
      else None
  {
    var (t, s, p) := (FormatRecord(TimeDefinition()), FormatRecord(SysDefinition()), FormatRecord(PwrDefinition()));
    Regrouped(FormatRecord(FmtDefinition()), t, s, p);
    FindAmong(FmtDefinition(), t + (s + (p + [])), kind);
    FindAmong(TimeDefinition(), s + (p + []), kind);
    FindAmong(SysDefinition(), p + [], kind);
    FindAmong(PwrDefinition(), [], kind);
  }

  // -------------------------------------------------------------------------
  // Records read back
  // -------------------------------------------------------------------------

  lemma NumbersReadBack(v: nat, k: nat)
    requires (k == 2 && v < 0x1_0000) || (k == 4 && v < 0x1_0000_0000) || (k == 8 && v < 0x1_0000_0000_0000_0000)
    ensures FromLittleEndian(LittleEndian(v, k)) == v
  {
    assert Pow256(2) == 0x1_0000;
    assert Pow256(4) == 0x1_0000_0000;
    assert Pow256(6) == 0x1_0000 * Pow256(4);
    assert Pow256(8) == 0x1_0000 * Pow256(6);
    LittleEndianRoundTrip(v, k);
  }

  lemma OneByte(b: u8)
    ensures FromLittleEndian([b]) == b
  {
    assert [b][1..] == [];
  }

  lemma {:induction false} WordAt(ws: seq<u16>, i: nat)
    requires i < |ws|
    ensures Words(ws)[2 * i..2 * i + 2] == LittleEndian(ws[i], 2)
  {
    if i > 0 {
      WordAt(ws[1..], i - 1);
      assert Words(ws)[2..] == Words(ws[1..]);
      assert Words(ws)[2 * i..2 * i + 2] == Words(ws)[2..][2 * (i - 1)..2 * (i - 1) + 2];
    }
  }

  /** SYS, byte by byte: the time, the heap, then one word for each task in order. */
  lemma SysBytes(t: u64, heap: u16, stacks: seq<u16>)
    requires |stacks| == 7
    ensures var b := EncodeRecord(SysLog(t, heap, stacks));
      && b[..3] == [0xA3, 0x95, 130] && FromLittleEndian(b[3..11]) == t && FromLittleEndian(b[11..13]) == heap
      && forall i | 0 <= i < 7 :: FromLittleEndian(b[13 + 2 * i..15 + 2 * i]) == stacks[i]
  {
    var b := EncodeRecord(SysLog(t, heap, stacks));
    assert b[3..11] == LittleEndian(t, 8) && b[11..13] == LittleEndian(heap, 2) && b[13..] == Words(stacks);
    NumbersReadBack(t, 8);
    NumbersReadBack(heap, 2);
    forall i | 0 <= i < 7 ensures FromLittleEndian(b[13 + 2 * i..15 + 2 * i]) == stacks[i] {
      assert b[13 + 2 * i..15 + 2 * i] == b[13..][2 * i..2 * i + 2];
      WordAt(stacks, i);
      NumbersReadBack(stacks[i], 2);
    }
  }

  lemma PwrBytes(t: u64, mv: u16, pct: i8)
    ensures var b := EncodeRecord(PwrLog(t, mv, pct));
      && b[..3] == [0xA3, 0x95, 131] && FromLittleEndian(b[3..11]) == t && FromLittleEndian(b[11..13]) == mv
      && pct == if b[13] >= 128 then b[13] as int - 256 else b[13]
  {
    var b := EncodeRecord(PwrLog(t, mv, pct));
    assert b[3..11] == LittleEndian(t, 8) && b[11..13] == LittleEndian(mv, 2);
    NumbersReadBack(t, 8);
    NumbersReadBack(mv, 2);
  }

  lemma TimeBytes(t: u64, unix: u32, source: Source)
    ensures var b := TimeRecord(t, unix, source);
      && b[..3] == [0xA3, 0x95, 129] && FromLittleEndian(b[3..11]) == t && FromLittleEndian(b[11..15]) == unix
      && b[15] == match source case Ground => 0 case Ds1307 => 1 case Survived => 2 case NoSource => 3
  {
    var b := TimeRecord(t, unix, source);
    assert b[3..11] == LittleEndian(t, 8) && b[11..15] == LittleEndian(unix, 4);
    NumbersReadBack(t, 8);
    NumbersReadBack(unix, 4);
  }

  lemma FourParts(head: Bytes, time: Bytes, four: Bytes, text: Bytes)
    requires |head| == 3 && |time| == 8 && |four| == 4 && |text| == 16
    ensures var b := head + time + four + text;
      b[..3] == head && b[3..11] == time && b[11..15] == four && b[15..31] == text
  {
  }

  lemma ResetBytes(r: Reset)
    ensures var b := ResetRecord(r);
      && b[..3] == [0xA3, 0x95, 132] && FromLittleEndian(b[3..11]) == r.timeUs
      && b[11..15] == [r.reason, r.phase, r.consecutive, r.cumulative]
      && b[15..31] == Field(if r.phase == 7 || r.phase == 8 then r.task else [], 16)
  {
    FourParts([HEAD1, HEAD2, MSG_RST], LittleEndian(r.timeUs, 8),
              [r.reason, r.phase, r.consecutive, r.cumulative],
              Field(if r.phase == 7 || r.phase == 8 then r.task else [], 16));
    NumbersReadBack(r.timeUs, 8);
  }

  // -------------------------------------------------------------------------
  // Every field, by its column
  // -------------------------------------------------------------------------

  lemma {:induction false} PositionIs(columns: seq<string>, i: nat)
    requires i < |columns| && forall j | 0 <= j < i :: columns[j] != columns[i]
    ensures Position(columns, columns[i]) == i
  {
    if i > 0 {
      PositionIs(columns[1..], i - 1);
    }
  }

  predicate Distinct(columns: seq<string>) {
    forall i, j | 0 <= i < j < |columns| :: columns[i] != columns[j]
  }

  /** Field `i` of a record lies between its start and the next one's. */
  lemma FieldAt(d: Definition, record: Bytes, i: nat, from: nat, to: nat)
    requires i < |d.columns| && i < |d.format| && Distinct(d.columns)
    requires from == Start(d.format, i) && to == Start(d.format, i + 1) && from <= to <= |record|
    ensures FieldBytes(d, record, d.columns[i]) == record[from..to]
    ensures var n := FromLittleEndian(record[from..to]);
      Number(d, record, d.columns[i]) == if d.format[i] == 'b' && n >= 128 then n - 256 else n
  {
    PositionIs(d.columns, i);
  }

  /** A format's fields, each `widths[i]` bytes wide, from byte 3. */
  lemma {:induction false} StartIs(format: string, widths: seq<nat>, i: nat)
    requires i <= |format| == |widths| && forall j | 0 <= j < i :: Width(format[j]) == widths[j]
    ensures Start(format, i) == 3 + Total(widths[..i])
  {
    if i > 0 {
      StartIs(format, widths, i - 1);
      assert widths[..i] == widths[..i - 1] + [widths[i - 1]];
      TotalSnoc(widths[..i - 1], widths[i - 1]);
    }
  }

  function Total(widths: seq<nat>): nat {
    if widths == [] then 0 else widths[0] + Total(widths[1..])
  }

  lemma {:induction false} TotalSnoc(widths: seq<nat>, last: nat)
    ensures Total(widths + [last]) == Total(widths) + last
  {
    if widths != [] {
      assert (widths + [last])[1..] == widths[1..] + [last];
      TotalSnoc(widths[1..], last);
    }
  }

  lemma TimeLayout()
    ensures Distinct(TimeDefinition().columns)
    ensures Start("QIB", 0) == 3 && Start("QIB", 1) == 11 && Start("QIB", 2) == 15 && Start("QIB", 3) == 16
  {
    assert "Src"[1] != "Unix"[1];
  }

  lemma PwrLayout()
    ensures Distinct(PwrDefinition().columns)
    ensures Start("QHb", 0) == 3 && Start("QHb", 1) == 11 && Start("QHb", 2) == 13 && Start("QHb", 3) == 14
  {
  }

  lemma SysLayout(i: nat)
    requires i <= 8
    ensures Start("QHHHHHHHH", 0) == 3 && Start("QHHHHHHHH", i + 1) == 11 + 2 * i
    decreases i
  {
    var f := "QHHHHHHHH";
    if i > 0 {
      SysLayout(i - 1);
      assert f[i] == 'H';
    } else {
      assert f[0] == 'Q' && Start(f, 1) == Start(f, 0) + Width(f[0]);
    }
  }

  lemma SysColumnsDiffer()
    ensures Distinct(SysDefinition().columns)
  {
    var c := SysDefinition().columns;
    assert c[2][0] == 'L' && c[4][0] == 'M';
    assert c[3][0] == 'S' && c[3][1] == 'd' && c[5][0] == 'S' && c[5][1] == 'R' && c[6][0] == 'S' && c[6][1] == 'W';
    assert c[7][0] == 'U' && c[7][1] == 'R' && c[8][0] == 'U' && c[8][1] == 'W';
    assert |c[0]| == 6 && |c[1]| == 4;
  }

  lemma ResetLayout()
    ensures Distinct(ResetDefinition().columns)
    ensures var f := "QBBBBN";
      && Start(f, 0) == 3 && Start(f, 1) == 11 && Start(f, 2) == 12 && Start(f, 3) == 13
      && Start(f, 4) == 14 && Start(f, 5) == 15 && Start(f, 6) == 31
  {
    var c := ResetDefinition().columns;
    assert c[1][0] == 'R' && c[4][0] == 'C' && c[3][0] == 'C' && c[5][0] == 'T' && |c[0]| == 6 && |c[2]| == 5;
  }

  /** What the preamble's own definition of its type makes of a record. */
  function Read(record: Bytes, column: string): int
    requires |record| >= 3
  {
    match FindDefinition(Preamble(), record[2])
    case Some(d) => Number(d, record, column)
    case None => -1
  }

  /** How long the preamble says a record is, by its length byte and by its fields. */
  predicate DeclaredLength(record: Bytes)
    requires |record| >= 3
  {
    match FindDefinition(Preamble(), record[2])
    case Some(d) => |record| == d.length == Start(d.format, |d.format|) && |d.columns| == |d.format|
    case None => false
  }

  /** Reading by the preamble is reading by the definition it holds. */
  lemma ReadsBy(record: Bytes, d: Definition, column: string)
    requires |record| >= 3 && FindDefinition(Preamble(), record[2]) == Some(d)
    ensures Read(record, column) == Number(d, record, column)
  {
  }

  lemma TimeNumbers(t: u64, unix: u32, source: Source)
    ensures var (b, d) := (TimeRecord(t, unix, source), TimeDefinition());
      && b[2] == MSG_TIME && Number(d, b, "TimeUS") == t && Number(d, b, "Unix") == unix
      && Number(d, b, "Src") == match source case Ground => 0 case Ds1307 => 1 case Survived => 2 case NoSource => 3
  {
    var b, d := TimeRecord(t, unix, source), TimeDefinition();
    TimeBytes(t, unix, source);
    TimeLayout();
    assert b[2] == b[..3][2];
    FieldAt(d, b, 0, 3, 11);
    FieldAt(d, b, 1, 11, 15);
    FieldAt(d, b, 2, 15, 16);
    assert b[15..16] == [b[15]];
    OneByte(b[15]);
  }

  lemma TimeFields(t: u64, unix: u32, source: Source)
    ensures var b := TimeRecord(t, unix, source);
      && DeclaredLength(b) && Read(b, "TimeUS") == t && Read(b, "Unix") == unix
      && Read(b, "Src") == match source case Ground => 0 case Ds1307 => 1 case Survived => 2 case NoSource => 3
  {
    var b, d := TimeRecord(t, unix, source), TimeDefinition();
    TimeNumbers(t, unix, source);
    PreambleDefines();
    TimeLayout();
    ReadsBy(b, d, "TimeUS");
    ReadsBy(b, d, "Unix");
    ReadsBy(b, d, "Src");
  }

  lemma PwrNumbers(t: u64, mv: u16, pct: i8)
    ensures var (b, d) := (EncodeRecord(PwrLog(t, mv, pct)), PwrDefinition());
      && b[2] == MSG_PWR
      && Number(d, b, "TimeUS") == t && Number(d, b, "mV") == mv && Number(d, b, "Pct") == pct
  {
    var b, d := EncodeRecord(PwrLog(t, mv, pct)), PwrDefinition();
    PwrBytes(t, mv, pct);
    PwrLayout();
    assert b[2] == b[..3][2];
    FieldAt(d, b, 0, 3, 11);
    FieldAt(d, b, 1, 11, 13);
    FieldAt(d, b, 2, 13, 14);
    assert b[13..14] == [b[13]];
    OneByte(b[13]);
  }

  lemma PwrFields(t: u64, mv: u16, pct: i8)
    ensures var b := EncodeRecord(PwrLog(t, mv, pct));
      DeclaredLength(b) && Read(b, "TimeUS") == t && Read(b, "mV") == mv && Read(b, "Pct") == pct
  {
    var b, d := EncodeRecord(PwrLog(t, mv, pct)), PwrDefinition();
    PwrNumbers(t, mv, pct);
    PreambleDefines();
    PwrLayout();
    ReadsBy(b, d, "TimeUS");
    ReadsBy(b, d, "mV");
    ReadsBy(b, d, "Pct");
  }

  lemma SysFormat(i: nat)
    requires i < 9
    ensures "QHHHHHHHH"[i] != 'b'
  {
    assert "QHHHHHHHH"[i] == 'Q' || "QHHHHHHHH"[i] == 'H';
  }

  lemma SysNumber(t: u64, heap: u16, stacks: seq<u16>, i: nat)
    requires |stacks| == 7 && i < 9
    ensures var (b, d) := (EncodeRecord(SysLog(t, heap, stacks)), SysDefinition());
      Number(d, b, d.columns[i]) == if i == 0 then t else if i == 1 then heap else stacks[i - 2]
  {
    var b, d := EncodeRecord(SysLog(t, heap, stacks)), SysDefinition();
    SysBytes(t, heap, stacks);
    SysColumnsDiffer();
    SysFormat(i);
    SysLayout(i);
    if i == 0 {
      FieldAt(d, b, 0, 3, 11);
    } else {
      SysLayout(i - 1);
      FieldAt(d, b, i, 9 + 2 * i, 11 + 2 * i);
      SysWord(b, stacks, i);
    }
  }

  lemma SysWord(b: Bytes, stacks: seq<u16>, i: nat)
    requires |b| == 27 && |stacks| == 7 && 1 <= i < 9
    requires forall j | 0 <= j < 7 :: FromLittleEndian(b[13 + 2 * j..15 + 2 * j]) == stacks[j]
    ensures i >= 2 ==> FromLittleEndian(b[9 + 2 * i..11 + 2 * i]) == stacks[i - 2]
  {
    if i >= 2 {
      var j := i - 2;
      assert FromLittleEndian(b[13 + 2 * j..15 + 2 * j]) == stacks[j];
    }
  }

  lemma SysField(t: u64, heap: u16, stacks: seq<u16>, i: nat)
    requires |stacks| == 7 && i < 9
    ensures var b := EncodeRecord(SysLog(t, heap, stacks));
      Read(b, SysDefinition().columns[i]) == if i == 0 then t else if i == 1 then heap else stacks[i - 2]
  {
    var b := EncodeRecord(SysLog(t, heap, stacks));
    SysNumber(t, heap, stacks, i);
    SysDefined(t, heap, stacks);
    ReadsBy(b, SysDefinition(), SysDefinition().columns[i]);
  }

  lemma SysDefined(t: u64, heap: u16, stacks: seq<u16>)
    requires |stacks| == 7
    ensures FindDefinition(Preamble(), EncodeRecord(SysLog(t, heap, stacks))[2]) == Some(SysDefinition())
  {
    var b := EncodeRecord(SysLog(t, heap, stacks));
    assert b[..3][2] == b[2];
    SysBytes(t, heap, stacks);
    PreambleDefines();
  }

  lemma SysFields(t: u64, heap: u16, stacks: seq<u16>)
    requires |stacks| == 7
    ensures var b := EncodeRecord(SysLog(t, heap, stacks));
      && DeclaredLength(b) && Read(b, "TimeUS") == t && Read(b, "Heap") == heap
      && Read(b, "Log") == stacks[0] && Read(b, "SdW") == stacks[1] && Read(b, "Mav") == stacks[2]
      && Read(b, "SRd") == stacks[3] && Read(b, "SWr") == stacks[4]
      && Read(b, "URd") == stacks[5] && Read(b, "UWr") == stacks[6]
  {
    var b := EncodeRecord(SysLog(t, heap, stacks));
    SysDefined(t, heap, stacks);
    SysLayout(8);
    var c := SysDefinition().columns;
    assert c[0] == "TimeUS" && c[1] == "Heap" && c[2] == "Log" && c[3] == "SdW" && c[4] == "Mav";
    assert c[5] == "SRd" && c[6] == "SWr" && c[7] == "URd" && c[8] == "UWr";
    SysField(t, heap, stacks, 0);
    SysField(t, heap, stacks, 1);
    SysField(t, heap, stacks, 2);
    SysField(t, heap, stacks, 3);
    SysField(t, heap, stacks, 4);
    SysField(t, heap, stacks, 5);
    SysField(t, heap, stacks, 6);
    SysField(t, heap, stacks, 7);
    SysField(t, heap, stacks, 8);
  }

  /**
   Every field of every log record reads back by its column, through nothing but the
   definitions the preamble holds; and every record is as long as they declare.
  */
  lemma RecordsReadBack(r: Record)
    requires r.SysLog? ==> |r.stacks| == 7
    ensures var b := EncodeRecord(r);
      DeclaredLength(b) && Read(b, "TimeUS") == r.timeUs &&
      match r
      case SysLog(_, heap, stacks) =>
        && Read(b, "Heap") == heap
        && Read(b, "Log") == stacks[0] && Read(b, "SdW") == stacks[1] && Read(b, "Mav") == stacks[2]
        && Read(b, "SRd") == stacks[3] && Read(b, "SWr") == stacks[4]
        && Read(b, "URd") == stacks[5] && Read(b, "UWr") == stacks[6]
      case PwrLog(_, mv, pct) => Read(b, "mV") == mv && Read(b, "Pct") == pct
      case TimeLog(_, unix, source) =>
        && Read(b, "Unix") == unix
        && Read(b, "Src") == match source case Ground => 0 case Ds1307 => 1 case Survived => 2 case NoSource => 3
  {
    match r
    case SysLog(t, heap, stacks) => SysFields(t, heap, stacks);
    case PwrLog(t, mv, pct) => PwrFields(t, mv, pct);
    case TimeLog(t, unix, source) => TimeFields(t, unix, source);
  }

  // -------------------------------------------------------------------------
  // Openings
  // -------------------------------------------------------------------------

  /** The name of the task a fault was reached in, as RST carries it. */
  function TaskOf(r: Reset): string {
    Text(Field(if r.phase == 7 || r.phase == 8 then r.task else [], 16))
  }

  /**
   An opening defines before it uses: the preamble defines TIME, a TIME record follows, then
   the definition of RST, and then the RST record, which reads back by it.
  */
  lemma OpeningReadsBack(o: Opening)
    ensures var (chunks, r) := (OpeningChunks(o), o.reset);
      && |chunks| == 4 && chunks[0] == Preamble()
      && FindDefinition(chunks[0], chunks[1][2]).Some? && chunks[1] == TimeRecord(o.timeUs, o.unix, o.source)
      && FindDefinition(chunks[2], chunks[3][2]) == Some(ResetDefinition())
      && var d := ResetDefinition();
         && |chunks[3]| == d.length == Start(d.format, |d.format|)
         && Number(d, chunks[3], "TimeUS") == r.timeUs && Number(d, chunks[3], "Rsn") == r.reason
         && Number(d, chunks[3], "Phase") == r.phase && Number(d, chunks[3], "Cons") == r.consecutive
         && Number(d, chunks[3], "Cum") == r.cumulative && Text(FieldBytes(d, chunks[3], "Task")) == TaskOf(r)
  {
    OpeningDefines(o);
    ResetLayout();
    ResetFields(o.reset);
  }

  lemma OpeningDefines(o: Opening)
    ensures FindDefinition(Preamble(), TimeRecord(o.timeUs, o.unix, o.source)[2]).Some?
    ensures FindDefinition(ResetFormat(), ResetRecord(o.reset)[2]) == Some(ResetDefinition())
  {
    PreambleDefines();
    TimeNumbers(o.timeUs, o.unix, o.source);
    ResetFormatDefines();
    ResetKind(o.reset);
  }

  lemma ResetKind(r: Reset)
    ensures ResetRecord(r)[2] == MSG_RST
  {
  }

  lemma ResetFormatDefines()
    ensures FindDefinition(ResetFormat(), MSG_RST) == Some(ResetDefinition())
  {
    var d := ResetDefinition();
    FindAmong(d, [], d.kind);
    assert FormatRecord(d) + [] == ResetFormat();
    ResetReadsBack();
  }

  lemma ResetFields(r: Reset)
    ensures var (d, b) := (ResetDefinition(), ResetRecord(r));
      && Number(d, b, "TimeUS") == r.timeUs && Number(d, b, "Rsn") == r.reason
      && Number(d, b, "Phase") == r.phase && Number(d, b, "Cons") == r.consecutive
      && Number(d, b, "Cum") == r.cumulative && Text(FieldBytes(d, b, "Task")) == TaskOf(r)
  {
    var (d, b) := (ResetDefinition(), ResetRecord(r));
    ResetBytes(r);
    ResetLayout();
    FieldAt(d, b, 0, 3, 11);
    FieldAt(d, b, 1, 11, 12);
    FieldAt(d, b, 2, 12, 13);
    FieldAt(d, b, 3, 13, 14);
    FieldAt(d, b, 4, 14, 15);
    FieldAt(d, b, 5, 15, 31);
    var four := b[11..15];
    assert b[11..12] == [four[0]] && b[12..13] == [four[1]] && b[13..14] == [four[2]] && b[14..15] == [four[3]];
    OneByte(four[0]);
    OneByte(four[1]);
    OneByte(four[2]);
    OneByte(four[3]);
  }
}
