/**
 Every listing and download finishes within a bounded number of passes; what a listing
 reports; and why a ring of one file cannot promise what DownloadSafety proves.
*/
module DownloadProgress {
  import opened Cards
  import opened RingSpec
  import opened RingBounds
  import opened LogFormat
  import opened DownloadSpec
  import opened DownloadSafety

  // -------------------------------------------------------------------------
  // A measure that every pass lowers
  // -------------------------------------------------------------------------

  /** How many more services a stream needs. */
  function StreamRank(s: Stream): nat {
    if !s.active then 0
    else if s.absent || s.pos >= s.end then 1
    else (s.end - s.pos + CHUNK - 1) / CHUNK + 1
  }

  function ListingRank(g: Geometry, l: Listing): nat {
    if !l.active then 0 else if l.nextSlot < g.n then g.n - l.nextSlot + 1 else 1
  }

  function PortRank(g: Geometry, v: Server, p: nat): nat
    requires ValidServer(v) && p < PORTS
  {
    ListingRank(g, v.listings[p]) + StreamRank(v.streams[p])
  }

  function Rank(g: Geometry, v: Server): nat
    requires ValidServer(v)
  {
    PortRank(g, v, 0) + PortRank(g, v, 1)
  }

  /** The port whose turn it is, when both queues have room. */
  function Turn(v: Server): nat
    requires ValidServer(v)
  {
    if HasWork(v, v.nextPort) then v.nextPort else 1 - v.nextPort
  }

  /** The next service only finds that the other port's download holds the handle. */
  predicate Waits(v: Server)
    requires ValidServer(v)
  {
    var p := Turn(v);
    var s := v.streams[p];
    s.active && !v.listings[p].active && !s.absent && s.pos < s.end && v.reader.Reading? && v.reader.port != p
  }

  function Measure(g: Geometry, v: Server): nat
    requires ValidServer(v)
  {
    2 * Rank(g, v) + if Waits(v) then 1 else 0
  }

  predicate Working(v: Server)
    requires ValidServer(v)
  {
    HasWork(v, 0) || HasWork(v, 1)
  }

  lemma MeasureZero(g: Geometry, v: Server)
    requires ValidServer(v)
    ensures Measure(g, v) == 0 <==> !Working(v)
  {
  }

  const ROOM := [true, true]

  lemma ListingFalls(g: Geometry, c: Card, v: Server, p: nat)
    requires ValidServer(v) && p < PORTS && v.listings[p].active
    ensures var w := ServeListing(v, g, c, p).0;
      w.streams == v.streams && w.reader == v.reader && w.listings == v.listings[p := w.listings[p]] &&
      ListingRank(g, w.listings[p]) < ListingRank(g, v.listings[p])
  {
  }

  lemma StreamFalls(g: Geometry, c: Card, v: Server, p: nat, t: Track)
    requires ValidServer(v) && p < PORTS && ReaderOk(v) && v.streams[p].active && PortOk(g, c, v.streams[p], t)
    requires v.streams[p].absent || v.streams[p].pos >= v.streams[p].end || !v.reader.Reading? || v.reader.port == p
    ensures var w := ServeStream(v, c, p).0;
      w.listings == v.listings && w.streams == v.streams[p := w.streams[p]] &&
      StreamRank(w.streams[p]) < StreamRank(v.streams[p])
  {
    var s := v.streams[p];
    if !s.absent && s.pos < s.end {
      var r, k := t.req, |t.sent|;
      assert Follows(g, c, s, r, k);
      ChunkArithmetic(r, k, s);
      ChunkResult(c, if v.reader.Reading? then v else v.(reader := Reading(p, s.slot, s.pos)), p, r, k);
      ChunkRank(s.end - s.pos, |AnswerData(r, k)|);
    }
  }

  lemma ChunkRank(left: nat, n: nat)
    requires 0 < left && n == if left > CHUNK then CHUNK else left
    ensures (left - n + CHUNK - 1) / CHUNK < (left + CHUNK - 1) / CHUNK
  {
  }

  lemma ServeFalls(g: Geometry, w: World, P: nat, L: nat)
    requires WorldOk(g, w, P, L) && Working(w.server) && !Waits(w.server)
    ensures Rank(g, Serve(w.server, g, w.sys.card, Turn(w.server)).0) < Rank(g, w.server)
  {
    var v := w.server;
    var p := Turn(v);
    assert PortOk(g, w.sys.card, v.streams[p], w.tracks[p]);
    if v.listings[p].active {
      ListingFalls(g, w.sys.card, v, p);
    } else {
      StreamFalls(g, w.sys.card, v, p, w.tracks[p]);
    }
  }

  lemma PassIsTurn(g: Geometry, v: Server, c: Card)
    requires ValidServer(v) && Working(v)
    ensures Pass(v, g, c, ROOM) == Serve(v, g, c, Turn(v))
  {
    assert ROOM[0] && ROOM[1];
  }

  /** While a port waits, nothing changes but the turn, which goes to the port that reads. */
  lemma WaitFalls(g: Geometry, w: World, P: nat, L: nat)
    requires WorldOk(g, w, P, L) && Waits(w.server)
    ensures var v := Serve(w.server, g, w.sys.card, Turn(w.server)).0;
      Rank(g, v) == Rank(g, w.server) && !Waits(v)
  {
    var v := w.server;
    var p := Turn(v);
    assert v.reader.port == 1 - p && v.streams[1 - p].active;
    WaitingServesNothing(g, w.sys.card, v);
    var next := v.(nextPort := 1 - p);
    assert Rank(g, next) == Rank(g, v);
  }

  lemma WaitingServesNothing(g: Geometry, c: Card, v: Server)
    requires ValidServer(v) && Waits(v)
    ensures Serve(v, g, c, Turn(v)).0 == v.(nextPort := 1 - Turn(v))
  {
    assert ServeStream(v, c, Turn(v)) == (v, []);
  }

  lemma PassFalls(g: Geometry, w: World, P: nat, L: nat)
    requires WorldOk(g, w, P, L) && Working(w.server)
    ensures Measure(g, NextWorld(g, w, ServePass(ROOM)).server) < Measure(g, w.server)
  {
    PassIsTurn(g, w.server, w.sys.card);
    if Waits(w.server) {
      WaitFalls(g, w, P, L);
    } else {
      ServeFalls(g, w, P, L);
    }
  }

  lemma ReuseNoRise(g: Geometry, v: Server, after: nat, p: nat)
    requires ValidServer(v) && p < PORTS
    ensures var w := Reuse(v, after, p).0; w == v || Rank(g, w) < Rank(g, v)
  {
    var s := v.streams[p];
    if s.active && !s.absent && s.slot == after {
      var w := EndStream(v, p);
      assert w.streams[1 - p] == v.streams[1 - p];
      assert StreamRank(w.streams[p]) == 0 < StreamRank(s);
    }
  }

  /** Logging meanwhile, rotations included, never adds download work. */
  lemma LogNoRise(g: Geometry, w: World, rec: Bytes, chunks: seq<Bytes>)
    requires ValidWorld(w)
    ensures Measure(g, NextWorld(g, w, Log(rec, chunks)).server) <= Measure(g, w.server)
  {
    var sys := Next(g, w.sys, Done(CallWrite(rec, chunks)));
    if w.sys.ram.Some? && sys.ram.Some? && sys.ram.value.slot != w.sys.ram.value.slot {
      var after := sys.ram.value.slot;
      ReuseNoRise(g, w.server, after, 0);
      ReuseNoRise(g, Reuse(w.server, after, 0).0, after, 1);
    }
  }

  predicate NoRequests(hs: seq<Happening>) {
    forall i | 0 <= i < |hs| :: hs[i].Log? || hs[i] == ServePass(ROOM)
  }

  function Passes(hs: seq<Happening>): nat {
    if hs == [] then 0 else (if hs[0].ServePass? then 1 else 0) + Passes(hs[1..])
  }

  /**
   If no new request arrives and both ports have room, every listing and every download has
   finished after as many passes as the measure says, whatever is logged between them, and
   with both ports contending for the one handle.
  */
  lemma {:induction false} DownloadsFinish(g: Geometry, w: World, hs: seq<Happening>, P: nat, L: nat)
    requires WorldOk(g, w, P, L) && AllWithin(hs, P, L) && NoRequests(hs)
    ensures var end := Worlds(g, w, hs).server;
      Measure(g, end) <= (if Passes(hs) < Measure(g, w.server) then Measure(g, w.server) - Passes(hs) else 0) &&
      (Passes(hs) >= Measure(g, w.server) ==> !Working(end))
    decreases |hs|
  {
    MeasureZero(g, Worlds(g, w, hs).server);
    if hs != [] {
      HappeningOk(g, w, hs[0], P, L);
      DownloadsFinish(g, NextWorld(g, w, hs[0]), hs[1..], P, L);
      StepFalls(g, w, hs[0], P, L);
    }
  }

  lemma StepFalls(g: Geometry, w: World, h: Happening, P: nat, L: nat)
    requires WorldOk(g, w, P, L) && HappeningWithin(h, P, L) && (h.Log? || h == ServePass(ROOM))
    ensures var (m, next) := (Measure(g, w.server), Measure(g, NextWorld(g, w, h).server));
      next <= m && (h.ServePass? && m > 0 ==> next < m)
  {
    MeasureZero(g, w.server);
    if h.Log? {
      LogNoRise(g, w, h.rec, h.chunks);
    } else if Working(w.server) {
      PassFalls(g, w, P, L);
    } else {
      assert Pass(w.server, g, w.sys.card, ROOM).0 == w.server;
    }
  }

  // -------------------------------------------------------------------------
  // What a listing reports
  // -------------------------------------------------------------------------

  /** The messages a listing posts on a card that does not change, to its end. */
  function ListingPosts(g: Geometry, c: Card, v: Server, p: nat): seq<Msg>
    requires ValidServer(v) && p < PORTS
    decreases ListingRank(g, v.listings[p])
  {
    if !v.listings[p].active then []
    else
      ListingFalls(g, c, v, p);
      var (w, msgs) := ServeListing(v, g, c, p);
      msgs + ListingPosts(g, c, w, p)
  }

  /** One entry for every listed slot from `from` on, in order of id. */
  function Entries(g: Geometry, c: Card, l: Listing, from: nat): seq<Msg>
    decreases g.n - from
  {
    if from >= g.n then []
    else (if Listed(c, l, from) then [EntryFor(g, c, from)] else []) + Entries(g, c, l, from + 1)
  }

  lemma EntriesWithout(g: Geometry, c: Card, l: Listing, from: nat)
    requires from < g.n && !Listed(c, l, from)
    ensures Entries(g, c, l, from) == Entries(g, c, l, from + 1)
  {
    assert [] + Entries(g, c, l, from + 1) == Entries(g, c, l, from + 1);
  }

  lemma {:induction false} EntriesFromNext(g: Geometry, c: Card, l: Listing, from: nat)
    requires from <= g.n
    ensures Entries(g, c, l, from) == Entries(g, c, l, NextListed(g, c, l, from))
    ensures NextListed(g, c, l, from) < g.n ==> Listed(c, l, NextListed(g, c, l, from))
    decreases g.n - from
  {
    if from < g.n && !Listed(c, l, from) {
      EntriesFromNext(g, c, l, from + 1);
      EntriesWithout(g, c, l, from);
    }
  }

  lemma EntriesSkip(g: Geometry, c: Card, l: Listing, from: nat)
    requires from <= g.n
    ensures var slot := NextListed(g, c, l, from);
      Entries(g, c, l, from) == if slot < g.n then [EntryFor(g, c, slot)] + Entries(g, c, l, slot + 1) else []
  {
    EntriesFromNext(g, c, l, from);
  }

  lemma {:induction false} EntriesIgnoreProgress(g: Geometry, c: Card, l: Listing, next: nat, from: nat)
    ensures Entries(g, c, l.(nextSlot := next), from) == Entries(g, c, l, from)
    decreases g.n - from
  {
    if from < g.n {
      EntriesIgnoreProgress(g, c, l, next, from + 1);
    }
  }

  /** A listing posts one entry for each file in range that has a size, each id once, ascending. */
  lemma {:induction false} ListingReportsEachFile(g: Geometry, c: Card, v: Server, p: nat)
    requires ValidServer(v) && p < PORTS && v.listings[p].active && g.n < SLOT_COUNTS
    ensures ListingPosts(g, c, v, p) == Entries(g, c, v.listings[p], v.listings[p].nextSlot)
    decreases ListingRank(g, v.listings[p])
  {
    ListingFalls(g, c, v, p);
    ListingStep(g, c, v, p);
    if ServeListing(v, g, c, p).0.listings[p].active {
      ListingReportsEachFile(g, c, ServeListing(v, g, c, p).0, p);
    }
  }

  /** One service takes the first of the entries still to come, or finds there is none. */
  lemma ListingStep(g: Geometry, c: Card, v: Server, p: nat)
    requires ValidServer(v) && p < PORTS && v.listings[p].active
    ensures var l := v.listings[p];
      var (w, msgs) := ServeListing(v, g, c, p);
      && (w.listings[p].active ==>
            Entries(g, c, l, l.nextSlot) == msgs + Entries(g, c, w.listings[p], w.listings[p].nextSlot))
      && (!w.listings[p].active ==>
            Entries(g, c, l, l.nextSlot) == [] && msgs + ListingPosts(g, c, w, p) == [])
  {
    var l := v.listings[p];
    if l.nextSlot < g.n && NextListed(g, c, l, l.nextSlot) < g.n {
      ListingFinds(g, c, v, p);
    } else {
      ListingEnds(g, c, v, p);
    }
  }

  lemma ListingFinds(g: Geometry, c: Card, v: Server, p: nat)
    requires ValidServer(v) && p < PORTS && v.listings[p].active && v.listings[p].nextSlot < g.n
    requires NextListed(g, c, v.listings[p], v.listings[p].nextSlot) < g.n
    ensures var l := v.listings[p];
      var (w, msgs) := ServeListing(v, g, c, p);
      && w.listings[p].active
      && Entries(g, c, l, l.nextSlot) == msgs + Entries(g, c, w.listings[p], w.listings[p].nextSlot)
  {
    var l := v.listings[p];
    var slot := NextListed(g, c, l, l.nextSlot);
    EntriesSkip(g, c, l, l.nextSlot);
    EntriesIgnoreProgress(g, c, l, slot + 1, slot + 1);
    EntryServed(g, c, v, p, slot);
  }

  lemma EntryServed(g: Geometry, c: Card, v: Server, p: nat, slot: nat)
    requires ValidServer(v) && p < PORTS && v.listings[p].nextSlot < g.n
    requires slot == NextListed(g, c, v.listings[p], v.listings[p].nextSlot) < g.n
    ensures ServeListing(v, g, c, p).0.listings[p] == v.listings[p].(nextSlot := slot + 1)
    ensures ServeListing(v, g, c, p).1 == [EntryFor(g, c, slot)]
  {
  }

  lemma ListingEnds(g: Geometry, c: Card, v: Server, p: nat)
    requires ValidServer(v) && p < PORTS && v.listings[p].active
    requires v.listings[p].nextSlot < g.n ==> NextListed(g, c, v.listings[p], v.listings[p].nextSlot) >= g.n
    ensures var l := v.listings[p];
      var (w, msgs) := ServeListing(v, g, c, p);
      && !w.listings[p].active
      && Entries(g, c, l, l.nextSlot) == [] && msgs + ListingPosts(g, c, w, p) == []
  {
    var l := v.listings[p];
    if l.nextSlot < g.n {
      EntriesSkip(g, c, l, l.nextSlot);
    }
  }

  /** The eight-bit slot counter after `k` increments. */
  function Counter(k: nat): nat {
    if k == 0 then 0 else (Counter(k - 1) + 1) % SLOT_COUNTS
  }

  lemma {:induction false} CounterIsBounded(k: nat)
    ensures Counter(k) < SLOT_COUNTS
    ensures k < SLOT_COUNTS ==> Counter(k) == k
  {
    if k > 0 { CounterIsBounded(k - 1); }
  }

  /** The loop over the slots comes to its end if and only if there are fewer than 256 of them. */
  lemma ListingLoopEnds(n: nat)
    ensures (exists k: nat :: Counter(k) >= n) <==> n < SLOT_COUNTS
  {
    if n < SLOT_COUNTS {
      CounterIsBounded(n);
    } else {
      forall k: nat ensures Counter(k) < n { CounterIsBounded(k); }
    }
  }

  /** The count an entry carries is of the files that exist, and the last id the highest among them. */
  lemma {:induction false} LogCountIsFiles(c: Card, n: nat)
    ensures CountLogs(c, n) == |FilesBelow(c, n)|
    ensures LastLog(c, n) <= n && (LastLog(c, n) > 0 ==> Present(c, LastLog(c, n) - 1))
    ensures forall s: nat | s < n && Present(c, s) :: s + 1 <= LastLog(c, n)
  {
    if n > 0 {
      LogCountIsFiles(c, n - 1);
      OneMoreFile(c, n);
    }
  }

  ghost function FilesBelow(c: Card, n: nat): set<nat> {
    set s: nat | s < n && Present(c, s)
  }

  lemma OneMoreFile(c: Card, n: nat)
    requires n > 0
    ensures |FilesBelow(c, n)| == |FilesBelow(c, n - 1)| + if Present(c, n - 1) then 1 else 0
  {
    assert FilesBelow(c, n) == if Present(c, n - 1) then FilesBelow(c, n - 1) + {n - 1} else FilesBelow(c, n - 1);
  }

  // -------------------------------------------------------------------------
  // One file is not enough
  // -------------------------------------------------------------------------

  /**
   With a single file a rotation moves into the slot it left, the task sees no change of
   slot, and a download goes on into the new file: for every size there is a run in which
   the bytes posted are not the ones the file held when the request arrived.
  */
  lemma OneFileMixesFiles(g: Geometry) returns (w: World, hs: seq<Happening>)
    requires g.n == 1
    ensures ValidWorld(w) && w == FreshWorld(w.sys) && Settled(g, w.sys, 1)
    ensures forall i | 0 <= i < |hs| :: ValidHappening(hs[i])
    ensures var t := Worlds(g, w, hs).tracks[0];
      t.Track? && Fits(t.req) && t.status == Running && !(t.sent <= Answer(t.req))
  {
    var sys := OneFile([7]);
    w := FreshWorld(sys);
    var rec: Bytes := seq(g.size + 1, _ => 5);
    hs := [AskData(0, 1, 0, 0xFFFF_FFFF), Log(rec, [[9]]), ServePass(ROOM)];
    var r := Request(1, 0, 0xFFFF_FFFF, [7]);
    var asked := OneFileAsked(g, w);
    OneFileLogged(g, asked, rec);
    ServesTheNewFile(g, asked.(sys := OneFile([9])), r);
    ThreeHappenings(g, w, hs[0], hs[1], hs[2]);
  }

  /** A ring of one file that holds `bytes`, open. */
  function OneFile(bytes: Bytes): Sys {
    Sys(Card([Some(bytes)], Some(0)), Some(Ram(0, [], 0)))
  }

  lemma OneFileAsked(g: Geometry, w: World) returns (asked: World)
    requires g.n == 1 && w == FreshWorld(OneFile([7]))
    ensures asked == NextWorld(g, w, AskData(0, 1, 0, 0xFFFF_FFFF)) && asked.sys == w.sys
    ensures asked.tracks == [Track(Request(1, 0, 0xFFFF_FFFF, [7]), [], Running), NoRequest]
    ensures asked.server.streams[0] == Stream(true, false, 0, 1, 0, 1, true, false, 0)
    ensures !asked.server.listings[0].active && asked.server.reader == Closed && asked.server.nextPort == 0
  {
    asked := NextWorld(g, w, AskData(0, 1, 0, 0xFFFF_FFFF));
  }

  lemma OneFileLogged(g: Geometry, w: World, rec: Bytes)
    requires g.n == 1 && ValidWorld(w) && w.sys == OneFile([7]) && |rec| > g.size
    ensures NextWorld(g, w, Log(rec, [[9]])) == w.(sys := OneFile([9]))
  {
    OneFileRotates(g, w.sys, rec);
  }

  lemma ThreeHappenings(g: Geometry, w: World, a: Happening, b: Happening, c: Happening)
    requires ValidWorld(w) && ValidHappening(a) && ValidHappening(b) && ValidHappening(c)
    ensures Worlds(g, w, [a, b, c]) == NextWorld(g, NextWorld(g, NextWorld(g, w, a), b), c)
  {
    var hs := [a, b, c];
    assert hs[1..] == [b, c] && [b, c][1..] == [c] && [c][1..] == [];
    var x := NextWorld(g, w, a);
    var y := NextWorld(g, x, b);
    assert Worlds(g, y, [c]) == Worlds(g, NextWorld(g, y, c), []);
    assert Worlds(g, w, hs) == Worlds(g, x, [b, c]) == Worlds(g, y, [c]);
  }

  lemma ServesTheNewFile(g: Geometry, w: World, r: Request)
    requires g.n == 1 && ValidWorld(w) && w.sys.card == Card([Some([9])], Some(0))
    requires r == Request(1, 0, 0xFFFF_FFFF, [7]) && w.tracks[0] == Track(r, [], Running)
    requires w.server.streams[0] == Stream(true, false, 0, 1, 0, 1, true, false, 0)
    requires !w.server.listings[0].active && w.server.reader == Closed && w.server.nextPort == 0
    ensures NextWorld(g, w, ServePass(ROOM)).tracks[0] == Track(r, [Data(1, 0, [9])], Running)
    ensures !([Data(1, 0, [9])] <= Answer(r))
  {
    var v := w.server;
    assert HasWork(v, 0);
    PassIsTurn(g, v, w.sys.card);
    assert [9][0..1] == [9];
    assert ServeStream(v, w.sys.card, 0).1 == [Data(1, 0, [9])];
    DataOnOne(0, [Data(1, 0, [9])], 0);
    assert [] + [Data(1, 0, [9])] == [Data(1, 0, [9])];
    assert Answer(r)[0] == Data(1, 0, [7]);
  }

  lemma OneFileRotates(g: Geometry, s: Sys, rec: Bytes)
    requires g.n == 1 && s == Sys(Card([Some([7])], Some(0)), Some(Ram(0, [], 0))) && |rec| > g.size
    ensures Next(g, s, Done(CallWrite(rec, [[9]]))) == Sys(Card([Some([9])], Some(0)), Some(Ram(0, [], 0)))
  {
    var a := Append(s.ram.value, rec);
    var done := a.ops + CloseOps(a.ram);
    AppendApplied(s.card, s.ram.value, rec);
    var c := Apply(s.card, done);
    NextSlotEffect(g, c, 0, [[9]]);
    assert Joined([[9]]) == [9] by { assert [[9]][1..] == []; }
    ApplyConcat(s.card, done, NextSlotOps(g, c, 0, [[9]]));
  }
}
