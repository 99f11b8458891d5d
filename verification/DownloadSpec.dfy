/**
 The server side of the MAVLink log protocol, as functions of its state: listings and
 streams on two ports, one reading handle between them, served a piece at a time.
*/
module DownloadSpec {
  import opened Cards
  import opened RingSpec
  import opened LogFormat

  const CHUNK: nat := 90
  const PORTS: nat := 2
  const SLOT_COUNTS: nat := 256   // how many values a listing's uint8_t slot counter has

  datatype Listing = Listing(active: bool, start: u16, end: u16, nextSlot: nat)

  datatype Stream = Stream(
    active: bool,
    absent: bool,       // the id names no file
    slot: int,          // an int8_t
    id: u16,
    pos: u32,
    end: u32,           // exclusive
    toFileEnd: bool,
    sentAny: bool,
    lastCount: nat)

  /** The one handle held across passes: whose download it reads, and where it stands. */
  datatype Reader = Closed | Reading(port: nat, slot: int, pos: nat)

  datatype Msg =
    | Entry(entryId: nat, numLogs: nat, lastLogNum: nat, timeUtc: nat, size: u32)
    | Data(id: u16, ofs: u32, data: Bytes)
    | Telemetry   // anything another task posts

  datatype Post = Post(port: nat, msg: Msg)

  datatype Server = Server(listings: seq<Listing>, streams: seq<Stream>, reader: Reader, nextPort: nat)

  predicate ValidServer(v: Server) {
    |v.listings| == PORTS && |v.streams| == PORTS && v.nextPort < PORTS
  }

  function ToInt8(x: int): int {
    (x + 128) % 256 - 128
  }

  /** A size as the 32-bit word that carries it. */
  function SlotSize(c: Card, slot: nat): u32 {
    |Content(c, slot)| % 0x1_0000_0000
  }

  // -------------------------------------------------------------------------
  // Streams
  // -------------------------------------------------------------------------

  function EndStream(v: Server, p: nat): (r: Server)
    requires ValidServer(v) && p < PORTS
    ensures ValidServer(r)
  {
    v.(streams := v.streams[p := v.streams[p].(active := false)],
       reader := if v.reader.Reading? && v.reader.port == p then Closed else v.reader)
  }

  function StartStream(v: Server, g: Geometry, c: Card, p: nat, id: u16, ofs: u32, count: u32): (r: Server)
    requires ValidServer(v) && p < PORTS
    ensures ValidServer(r)
  {
    var w := EndStream(v, p);
    var slot: int := id - 1;
    var size: u32 := if 0 <= slot < g.n then SlotSize(c, slot) else 0;
    var available: u32 := if ofs < size then size - ofs else 0;
    var toFileEnd := count >= available;
    var end: u32 := if toFileEnd then size else ofs + count;
    w.(streams := w.streams[p := Stream(true, size == 0, ToInt8(slot), id, ofs, end, toFileEnd, false, 0)])
  }

  /** Reads and posts one chunk through the handle, which this port holds. */
  function ReadChunk(v: Server, c: Card, p: nat): (r: (Server, seq<Msg>))
    requires ValidServer(v) && p < PORTS && v.reader.Reading?
    requires v.streams[p].pos < v.streams[p].end
    ensures ValidServer(r.0)
  {
    var s := v.streams[p];
    var want := if s.end - s.pos > CHUNK then CHUNK else s.end - s.pos;
    var file := if v.reader.slot >= 0 then Content(c, v.reader.slot) else [];
    var left := if v.reader.pos < |file| then |file| - v.reader.pos else 0;
    var n := if want < left then want else left;
    if n == 0 then (EndStream(v, p), [])
    else
      (v.(streams := v.streams[p := s.(pos := s.pos + n, sentAny := true, lastCount := n)],
          reader := v.reader.(pos := v.reader.pos + n)),
       [Data(s.id, s.pos, file[v.reader.pos..v.reader.pos + n])])
  }

  function ServeStream(v: Server, c: Card, p: nat): (r: (Server, seq<Msg>))
    requires ValidServer(v) && p < PORTS
    ensures ValidServer(r.0)
  {
    var s := v.streams[p];
    if s.absent then
      (v.(streams := v.streams[p := s.(active := false)]), [Data(s.id, s.pos, [])])
    else if s.pos >= s.end then
      (EndStream(v, p),
       if s.toFileEnd && (!s.sentAny || s.lastCount == CHUNK) then [Data(s.id, s.pos, [])] else [])
    else if v.reader.Reading? && v.reader.port == p then ReadChunk(v, c, p)
    else if v.reader.Reading? then (v, [])
    else if s.slot >= 0 && Present(c, s.slot) then ReadChunk(v.(reader := Reading(p, s.slot, s.pos)), c, p)
    else (EndStream(v, p), [])
  }

  // -------------------------------------------------------------------------
  // Listings
  // -------------------------------------------------------------------------

  function CountLogs(c: Card, n: nat): nat {
    if n == 0 then 0 else CountLogs(c, n - 1) + if Present(c, n - 1) then 1 else 0
  }

  function LastLog(c: Card, n: nat): nat {
    if n == 0 then 0 else if Present(c, n - 1) then n else LastLog(c, n - 1)
  }

  predicate Listed(c: Card, l: Listing, slot: nat) {
    l.start <= slot + 1 <= l.end && SlotSize(c, slot) > 0
  }

  /** The next slot from `from` the listing reports, or n. */
  function NextListed(g: Geometry, c: Card, l: Listing, from: nat): (slot: nat)
    ensures from <= g.n ==> from <= slot <= g.n
    decreases g.n - from
  {
    if from >= g.n then g.n else if Listed(c, l, from) then from else NextListed(g, c, l, from + 1)
  }

  function EntryFor(g: Geometry, c: Card, slot: nat): Msg {
    Entry(slot + 1, CountLogs(c, g.n), LastLog(c, g.n), SlotTimeUtc(c, slot), SlotSize(c, slot))
  }

  function ServeListing(v: Server, g: Geometry, c: Card, p: nat): (r: (Server, seq<Msg>))
    requires ValidServer(v) && p < PORTS
    ensures ValidServer(r.0)
  {
    var l := v.listings[p];
    var slot := NextListed(g, c, l, l.nextSlot);
    if l.nextSlot < g.n && slot < g.n
    then (v.(listings := v.listings[p := l.(nextSlot := slot + 1)]), [EntryFor(g, c, slot)])
    else
      var next := if l.nextSlot < g.n then g.n else l.nextSlot;
      (v.(listings := v.listings[p := l.(nextSlot := next, active := false)]), [])
  }

  function StartListing(v: Server, p: nat, start: u16, end: u16): (r: Server)
    requires ValidServer(v) && p < PORTS
    ensures ValidServer(r)
  {
    v.(listings := v.listings[p := Listing(true, start, end, 0)])
  }

  // -------------------------------------------------------------------------
  // One pass
  // -------------------------------------------------------------------------

  function ToPort(p: nat, msgs: seq<Msg>): (r: seq<Post>)
    ensures |r| == |msgs| && forall i | 0 <= i < |r| :: r[i] == Post(p, msgs[i])
  {
    seq(|msgs|, i requires 0 <= i < |msgs| => Post(p, msgs[i]))
  }

  /** What a rotation into slot `after` does to the download on one port. */
  function Reuse(v: Server, after: nat, p: nat): (r: (Server, seq<Msg>))
    requires ValidServer(v) && p < PORTS
    ensures ValidServer(r.0)
  {
    var s := v.streams[p];
    if s.active && !s.absent && s.slot == after then (EndStream(v, p), [Data(s.id, s.pos, [])]) else (v, [])
  }

  function Rotated(v: Server, after: nat): (r: (Server, seq<Post>))
    requires ValidServer(v)
    ensures ValidServer(r.0)
  {
    var (v0, m0) := Reuse(v, after, 0);
    var (v1, m1) := Reuse(v0, after, 1);
    (v1, ToPort(0, m0) + ToPort(1, m1))
  }

  predicate HasWork(v: Server, p: nat)
    requires ValidServer(v) && p < PORTS
  {
    v.listings[p].active || v.streams[p].active
  }

  function Serve(v: Server, g: Geometry, c: Card, p: nat): (r: (Server, seq<Post>))
    requires ValidServer(v) && p < PORTS
    ensures ValidServer(r.0)
  {
    var (w, msgs) := if v.listings[p].active then ServeListing(v, g, c, p) else ServeStream(v, c, p);
    (w.(nextPort := (p + 1) % 2), ToPort(p, msgs))
  }

  /** At most one piece of download work, on the first port in turn with work and room. */
  function Pass(v: Server, g: Geometry, c: Card, room: seq<bool>): (r: (Server, seq<Post>))
    requires ValidServer(v) && |room| == PORTS
    ensures ValidServer(r.0)
  {
    var first := v.nextPort;
    var second := (v.nextPort + 1) % 2;
    if HasWork(v, first) && room[first] then Serve(v, g, c, first)
    else if HasWork(v, second) && room[second] then Serve(v, g, c, second)
    else (v, [])
  }

  /** The port `j` places on in turn has work, and room for its answer. */
  predicate Servable(v: Server, room: seq<bool>, j: nat)
    requires ValidServer(v) && |room| == PORTS
  {
    HasWork(v, (v.nextPort + j) % 2) && room[(v.nextPort + j) % 2]
  }

  lemma PassServes(v: Server, g: Geometry, c: Card, room: seq<bool>, i: nat)
    requires ValidServer(v) && |room| == PORTS && i < 2
    requires Servable(v, room, i) && forall j: nat | j < i :: !Servable(v, room, j)
    ensures Pass(v, g, c, room) == Serve(v, g, c, (v.nextPort + i) % 2)
  {
    if i == 1 {
      assert !Servable(v, room, 0);
      assert !(HasWork(v, v.nextPort) && room[v.nextPort]);
    }
  }

  lemma PassIdles(v: Server, g: Geometry, c: Card, room: seq<bool>)
    requires ValidServer(v) && |room| == PORTS && forall j: nat | j < 2 :: !Servable(v, room, j)
    ensures Pass(v, g, c, room) == (v, [])
  {
    assert !Servable(v, room, 0) && !Servable(v, room, 1);
  }
}
