/**
 The card's owner: the task that logs records and serves the log protocol, changing its own
 state step by step, proved to do what DownloadSpec says of that state.
*/
module SdWrite {
  import opened Cards
  import opened RingSpec
  import opened LogFormat
  import opened DownloadSpec
  import opened DownloadSafety
  import opened SdDataRing
  import opened Queues
  import Pacing

  function QueuedAll(q: seq<Msg>, ms: seq<Msg>): seq<Msg>
    decreases |ms|
  {
    if ms == [] then q else QueuedAll(Queued(q, ms[0]), ms[1..])
  }

  /** Where a listing's counter stands once it has run out of slots. */
  function Ended(from: nat, n: nat): nat {
    if from < n then n else from
  }

  /** The counter has come from where `l` has it to `at` past slots that are not listed. */
  ghost predicate Skipped(g: Geometry, c: Card, l: Listing, at: nat) {
    && l.nextSlot <= at <= Ended(l.nextSlot, g.n)
    && (l.nextSlot < g.n ==> NextListed(g, c, l, l.nextSlot) == NextListed(g, c, l, at))
  }

  lemma SkipsOne(g: Geometry, c: Card, l: Listing, at: nat)
    requires Skipped(g, c, l, at) && at < g.n
    ensures l.nextSlot < g.n
    ensures if Listed(c, l, at) then NextListed(g, c, l, l.nextSlot) == at else Skipped(g, c, l, at + 1)
  {
  }

  class SdWriter {
    const ring: SdData
    var listings: seq<Listing>
    var streams: seq<Stream>
    var reader: Reader
    var nextPort: nat
    var queues: seq<seq<Msg>>

    ghost function Ring(): Geometry {
      ring.Ring()
    }

    ghost function Card(): Card
      reads ring.card
    {
      ring.card.State()
    }

    ghost function View(): Server
      reads this
    {
      Server(listings, streams, reader, nextPort)
    }

    ghost predicate Valid()
      reads this, ring, ring.card
    {
      ring.Valid() && ValidServer(View()) && |queues| == PORTS &&
      (reader.Reading? ==> reader.slot < ring.files) &&
      (forall p | 0 <= p < PORTS :: listings[p].nextSlot < SLOT_COUNTS) &&
      forall p | 0 <= p < PORTS :: streams[p].active && !streams[p].absent ==> streams[p].slot < ring.files
    }

    constructor (ring: SdData)
      requires ring.Valid()
      ensures Valid() && View() == FreshServer() && queues == [[], []] && this.ring == ring
    {
      this.ring := ring;
      var start := FreshServer();
      listings, streams, reader, nextPort := start.listings, start.streams, start.reader, start.nextPort;
      queues := [[], []];
    }

    method Post(p: nat, m: Msg)
      requires Valid() && p < PORTS
      modifies this`queues
      ensures Valid() && queues == old(queues)[p := Queued(old(queues[p]), m)]
    {
      if |queues[p]| < DEPTH {
        queues := queues[p := queues[p] + [m]];
      }
    }

    method PortHasRoom(p: nat) returns (room: bool)
      requires Valid() && p < PORTS
      ensures room == (|queues[p]| <= 1)
    {
      room := |queues[p]| <= 1;
    }

    /** The synced size of a slot, 0 when its file does not exist. */
    method SizeOfSlot(slot: nat) returns (size: u32)
      requires Valid() && slot < ring.files
      ensures size == SlotSize(Card(), slot)
    {
      if ring.card.slots[slot].None? { return 0; }
      size := |ring.card.slots[slot].value| % 0x1_0000_0000;
    }

    method TimeOfSlot(slot: nat) returns (utc: nat)
      requires Valid() && slot < ring.files
      ensures utc == SlotTimeUtc(Card(), slot)
    {
      if ring.card.slots[slot].None? { return 0; }
      var file := ring.card.slots[slot].value;
      if |file| < HEAD_TIME_OFFSET + 16 { return 0; }
      var head := file[HEAD_TIME_OFFSET..HEAD_TIME_OFFSET + 16];
      if head[0] != HEAD1 || head[1] != HEAD2 || head[2] != MSG_TIME || head[15] == NoSource.Rank() { return 0; }
      utc := FromLittleEndian(head[11..15]);
    }

    method BeginListing(p: nat, start: u16, end: u16)
      requires Valid() && p < PORTS
      modifies this`listings
      ensures Valid() && View() == StartListing(old(View()), p, start, end)
    {
      listings := listings[p := Listing(true, start, end, 0)];
    }

    method StopStream(p: nat)
      requires Valid() && p < PORTS
      modifies this`streams, this`reader
      ensures Valid() && View() == EndStream(old(View()), p)
    {
      streams := streams[p := streams[p].(active := false)];
      if reader.Reading? && reader.port == p {
        reader := Closed;
      }
    }

    /** A new request replaces the download on its port; its end is fixed here. */
    method BeginStream(p: nat, id: u16, ofs: u32, count: u32)
      requires Valid() && p < PORTS
      modifies this`streams, this`reader
      ensures Valid() && View() == StartStream(old(View()), Ring(), Card(), p, id, ofs, count)
    {
      StopStream(p);
      var slot: int := id - 1;
      var size: u32 := 0;
      if 0 <= slot < ring.files {
        size := SizeOfSlot(slot);
      }
      // The sum is formed only where it stops short of the file, so it cannot overflow.
      var available: u32 := if ofs < size then size - ofs else 0;
      var toFileEnd := count >= available;
      var end: u32 := size;
      if !toFileEnd {
        end := ofs + count;
      }
      streams := streams[p := Stream(true, size == 0, ToInt8(slot), id, ofs, end, toFileEnd, false, 0)];
    }

    /** How many files exist, and the highest id among them. */
    method CountFiles() returns (numLogs: nat, lastLogNum: nat)
      requires Valid()
      ensures numLogs == CountLogs(Card(), ring.files) && lastLogNum == LastLog(Card(), ring.files)
    {
      numLogs, lastLogNum := 0, 0;
      for slot := 0 to ring.files
        invariant numLogs == CountLogs(Card(), slot) && lastLogNum == LastLog(Card(), slot)
      {
        if ring.card.slots[slot].Some? {
          numLogs := numLogs + 1;
          lastLogNum := slot + 1;
        }
      }
    }

    /** Whether a slot's id is asked for, and its file has a size. */
    method IsListed(l: Listing, slot: nat) returns (listed: bool)
      requires Valid() && slot < ring.files
      ensures listed == Listed(Card(), l, slot)
    {
      var id := slot + 1;
      if id < l.start || id > l.end { return false; }
      var size := SizeOfSlot(slot);
      return size != 0;
    }

    /** Moves a listing's counter past the next slot to report and returns it, or past them all. */
    method AdvanceListing(p: nat) returns (found: bool, slot: nat)
      requires Valid() && p < PORTS && ring.files < SLOT_COUNTS
      modifies this`listings
      ensures Valid()
      ensures var l := old(listings[p]);
        var next := NextListed(Ring(), Card(), l, l.nextSlot);
        && found == (l.nextSlot < ring.files && next < ring.files)
        && (found ==> slot == next && listings == old(listings)[p := l.(nextSlot := next + 1)])
        && (!found ==> listings == old(listings)[p := l.(nextSlot := Ended(l.nextSlot, ring.files))])
    {
      ghost var l := listings[p];
      while listings[p].nextSlot < ring.files
        invariant Valid() && Skipped(Ring(), Card(), l, listings[p].nextSlot)
        invariant listings == old(listings)[p := l.(nextSlot := listings[p].nextSlot)]
        decreases ring.files - listings[p].nextSlot
      {
        slot := listings[p].nextSlot;
        SkipsOne(Ring(), Card(), l, slot);
        listings := listings[p := listings[p].(nextSlot := (slot + 1) % SLOT_COUNTS)];
        var listed := IsListed(listings[p], slot);
        if listed {
          return true, slot;
        }
      }
      return false, 0;
    }

    method PostEntry(p: nat, slot: nat, numLogs: nat, lastLogNum: nat)
      requires Valid() && p < PORTS && slot < ring.files
      requires numLogs == CountLogs(Card(), ring.files) && lastLogNum == LastLog(Card(), ring.files)
      modifies this`queues
      ensures Valid()
      ensures queues == old(queues)[p := QueuedAll(old(queues[p]), [EntryFor(Ring(), Card(), slot)])]
    {
      var size := SizeOfSlot(slot);
      var time := TimeOfSlot(slot);
      QueuedOne(queues[p], EntryFor(Ring(), Card(), slot));
      Post(p, Entry(slot + 1, numLogs, lastLogNum, time, size));
    }

    /** One entry, or the end of the listing. */
    method ServiceListing(p: nat)
      requires Valid() && p < PORTS && ring.files < SLOT_COUNTS
      modifies this`listings, this`queues
      ensures Valid() && View() == ServeListing(old(View()), Ring(), Card(), p).0
      ensures queues == old(queues)[p := QueuedAll(old(queues[p]), ServeListing(old(View()), Ring(), Card(), p).1)]
    {
      var numLogs, lastLogNum := CountFiles();
      var found, slot := AdvanceListing(p);
      if found {
        PostEntry(p, slot, numLogs, lastLogNum);
      } else {
        listings := listings[p := listings[p].(active := false)];
      }
    }

    /** One chunk, or nothing while the other port's download holds the handle. */
    method ServiceStream(p: nat)
      requires Valid() && p < PORTS && streams[p].active
      modifies this`streams, this`reader, this`queues
      ensures Valid() && View() == ServeStream(old(View()), Card(), p).0
      ensures queues == old(queues)[p := QueuedAll(old(queues[p]), ServeStream(old(View()), Card(), p).1)]
    {
      var s := streams[p];
      if s.absent {
        Post(p, Data(s.id, s.pos, []));
        streams := streams[p := s.(active := false)];
        return;
      }

      if s.pos >= s.end {
        if s.toFileEnd && (!s.sentAny || s.lastCount == CHUNK) {
          Post(p, Data(s.id, s.pos, []));
        }
        StopStream(p);
        return;
      }

      if !reader.Reading? || reader.port != p {
        if reader.Reading? { return; }
        if s.slot < 0 || ring.card.slots[s.slot].None? {
          StopStream(p);
          return;
        }
        reader := Reading(p, s.slot, s.pos);
      }
      SendChunk(p);
    }

    /** Reads the next chunk through the handle this port holds, and posts it. */
    method SendChunk(p: nat)
      requires Valid() && p < PORTS && streams[p].pos < streams[p].end
      requires reader.Reading? && reader.port == p
      modifies this`streams, this`reader, this`queues
      ensures Valid() && View() == ReadChunk(old(View()), Card(), p).0
      ensures queues == old(queues)[p := QueuedAll(old(queues[p]), ReadChunk(old(View()), Card(), p).1)]
    {
      var s := streams[p];
      var want: nat := s.end - s.pos;
      if want > CHUNK { want := CHUNK; }
      var data := ReadHandle(want);
      if |data| == 0 {
        StopStream(p);
        return;
      }
      Post(p, Data(s.id, s.pos, data));
      streams := streams[p := s.(pos := s.pos + |data|, sentAny := true, lastCount := |data|)];
    }

    /** Reads what the handle can give, up to `want` bytes, and moves it past them. */
    method ReadHandle(want: nat) returns (data: Bytes)
      requires Valid() && reader.Reading?
      modifies this`reader
      ensures Valid() && |data| <= want
      ensures var file := if old(reader).slot >= 0 then Content(Card(), old(reader).slot) else [];
        var left := if old(reader).pos < |file| then |file| - old(reader).pos else 0;
        var n := if want < left then want else left;
        |data| == n && (n > 0 ==> data == file[old(reader).pos..old(reader).pos + n]) &&
        reader == old(reader).(pos := old(reader).pos + n)
    {
      var file: Bytes := [];
      if reader.slot >= 0 && ring.card.slots[reader.slot].Some? {
        file := ring.card.slots[reader.slot].value;
      }
      if reader.pos >= |file| { return []; }
      var n := if want < |file| - reader.pos then want else |file| - reader.pos;
      data := file[reader.pos..reader.pos + n];
      reader := reader.(pos := reader.pos + n);
    }

    /** Ends the download on one port if a rotation has just reused its slot. */
    method EndReused(p: nat, after: nat)
      requires Valid() && p < PORTS
      modifies this`streams, this`reader, this`queues
      ensures Valid() && View() == Reuse(old(View()), after, p).0
      ensures queues == old(queues)[p := QueuedAll(old(queues[p]), Reuse(old(View()), after, p).1)]
    {
      var s := streams[p];
      if s.active && !s.absent && s.slot == after {
        Post(p, Data(s.id, s.pos, []));
        StopStream(p);
      }
    }

    /** Logs a record; where that moved the ring, ends the downloads of the slot it is now in. */
    method WriteRecord(record: Record, opening: Opening)
      requires Valid() && (record.SysLog? ==> |record.stacks| == 7)
      modifies this`streams, this`reader, this`queues, ring, ring.card
      ensures Valid()
      ensures ring.View() ==
        Next(Ring(), old(ring.View()), Done(CallWrite(EncodeRecord(record), OpeningChunks(opening))))
      ensures ring.fileIdx == old(ring.fileIdx) ==> View() == old(View()) && queues == old(queues)
      ensures ring.fileIdx != old(ring.fileIdx) ==>
        var (v0, m0) := Reuse(old(View()), ring.fileIdx, 0);
        var (v1, m1) := Reuse(v0, ring.fileIdx, 1);
        View() == v1 && queues == [QueuedAll(old(queues[0]), m0), QueuedAll(old(queues[1]), m1)]
    {
      WriteBytes(EncodeRecord(record), OpeningChunks(opening));
    }

    /** One write to the ring; where that moved it, ends the downloads of the slot it is now in. */
    method WriteBytes(data: Bytes, chunks: seq<Bytes>)
      requires Valid()
      modifies this`streams, this`reader, this`queues, ring, ring.card
      ensures Valid()
      ensures ring.View() == Next(Ring(), old(ring.View()), Done(CallWrite(data, chunks)))
      ensures ring.fileIdx == old(ring.fileIdx) ==> View() == old(View()) && queues == old(queues)
      ensures ring.fileIdx != old(ring.fileIdx) ==>
        var (v0, m0) := Reuse(old(View()), ring.fileIdx, 0);
        var (v1, m1) := Reuse(v0, ring.fileIdx, 1);
        View() == v1 && queues == [QueuedAll(old(queues[0]), m0), QueuedAll(old(queues[1]), m1)]
    {
      var before := ring.fileIdx;
      ring.Write(data, chunks);
      var after := ring.fileIdx;
      if after != before {
        EndReused(0, after);
        EndReused(1, after);
      }
    }

    /** One piece of download work on a port that has some; the other port is next in turn. */
    method ServicePort(p: nat)
      requires Valid() && ring.files < SLOT_COUNTS && p < PORTS && HasWork(View(), p)
      modifies this
      ensures Valid() && View() == Serve(old(View()), Ring(), Card(), p).0
      ensures QueuesAfter(old(queues), queues, Serve(old(View()), Ring(), Card(), p).1)
    {
      ghost var v, before := View(), queues;
      if listings[p].active {
        ServiceListing(p);
        PostedOnOne(before, queues, p, ServeListing(v, Ring(), Card(), p).1);
      } else {
        ServiceStream(p);
        PostedOnOne(before, queues, p, ServeStream(v, Card(), p).1);
      }
      nextPort := (p + 1) % 2;
    }

    /** At most one piece of download work, alternating ports, where the port's queue has room. */
    method ServiceOne()
      requires Valid() && ring.files < SLOT_COUNTS
      modifies this
      ensures Valid()
      ensures View() == Pass(old(View()), Ring(), Card(), Room(old(queues))).0
      ensures QueuesAfter(old(queues), queues, Pass(old(View()), Ring(), Card(), Room(old(queues))).1)
    {
      ghost var v, room := View(), Room(queues);
      var i := 0;
      while i < 2
        invariant 0 <= i <= 2 && unchanged(this)
        invariant forall j: nat | j < i :: !Servable(v, room, j)
      {
        var port := (nextPort + i) % 2;
        var hasRoom := PortHasRoom(port);
        if (listings[port].active || streams[port].active) && hasRoom {
          PassServes(v, Ring(), Card(), room, i);
          ServicePort(port);
          return;
        }
        i := i + 1;
      }
      PassIdles(v, Ring(), Card(), room);
    }
  }

  /** Which ports' queues have room for a log message: at most one item waiting. */
  function Room(queues: seq<seq<Msg>>): seq<bool>
    requires |queues| == PORTS
  {
    [|queues[0]| <= 1, |queues[1]| <= 1]
  }

  /** Each port's queue after the messages posted on it. */
  predicate QueuesAfter(before: seq<seq<Msg>>, after: seq<seq<Msg>>, posts: seq<Post>) {
    |before| == |after| == PORTS &&
    after[0] == QueuedAll(before[0], MessagesOn(posts, 0)) &&
    after[1] == QueuedAll(before[1], MessagesOn(posts, 1))
  }

  /** The messages posted on one port. */
  function MessagesOn(posts: seq<Post>, p: nat): seq<Msg> {
    if posts == [] then []
    else (if posts[0].port == p then [posts[0].msg] else []) + MessagesOn(posts[1..], p)
  }

  lemma PostedOnOne(before: seq<seq<Msg>>, after: seq<seq<Msg>>, p: nat, msgs: seq<Msg>)
    requires |before| == PORTS && p < PORTS && after == before[p := QueuedAll(before[p], msgs)]
    ensures QueuesAfter(before, after, ToPort(p, msgs))
  {
    PostsOnPorts(p, msgs, 0);
    PostsOnPorts(p, msgs, 1);
  }

  lemma {:induction false} PostsOnPorts(p: nat, msgs: seq<Msg>, q: nat)
    ensures MessagesOn(ToPort(p, msgs), q) == if q == p then msgs else []
    decreases |msgs|
  {
    if msgs != [] {
      PostsOnPorts(p, msgs[1..], q);
      assert ToPort(p, msgs)[1..] == ToPort(p, msgs[1..]);
    }
  }

  // -------------------------------------------------------------------------
  // A pass as the pacing sees it
  // -------------------------------------------------------------------------

  function ItemOf(m: Msg): Pacing.Item {
    if m.Telemetry? then Pacing.Telemetry else Pacing.Paced
  }

  function Items(q: seq<Msg>): (r: seq<Pacing.Item>)
    ensures |r| == |q|
  {
    seq(|q|, i requires 0 <= i < |q| => ItemOf(q[i]))
  }

  lemma ServePostsOnce(v: Server, g: Geometry, c: Card, p: nat)
    requires ValidServer(v) && p < PORTS
    ensures var posts := Serve(v, g, c, p).1;
      |posts| <= 1 && forall i | 0 <= i < |posts| :: posts[i].port == p && !posts[i].msg.Telemetry?
  {
  }

  /** A pass posts at most one message, and only where it has found room. */
  lemma PassPostsOnce(v: Server, g: Geometry, c: Card, room: seq<bool>)
    requires ValidServer(v) && |room| == PORTS
    ensures var posts := Pass(v, g, c, room).1;
      && |posts| <= 1
      && forall i | 0 <= i < |posts| :: posts[i].port < PORTS && room[posts[i].port] && !posts[i].msg.Telemetry?
  {
    ServePostsOnce(v, g, c, v.nextPort);
    ServePostsOnce(v, g, c, (v.nextPort + 1) % 2);
  }

  /** So each port's queue sees of a pass nothing, or the room check and the paced post that follows it. */
  lemma PassIsPaced(v: Server, g: Geometry, c: Card, before: seq<seq<Msg>>, after: seq<seq<Msg>>, p: nat)
    requires ValidServer(v) && |before| == PORTS && p < PORTS
    requires QueuesAfter(before, after, Pass(v, g, c, Room(before)).1)
    ensures
      || after[p] == before[p]
      || Items(after[p]) == Pacing.Run(Pacing.Port(Items(before[p]), false), [Pacing.Check, Pacing.PostPaced]).queue
  {
    PassPostsOnce(v, g, c, Room(before));
    PostsArePaced(before, after, Pass(v, g, c, Room(before)).1, p);
  }

  lemma PostsArePaced(before: seq<seq<Msg>>, after: seq<seq<Msg>>, posts: seq<Post>, p: nat)
    requires |before| == PORTS && p < PORTS && QueuesAfter(before, after, posts) && |posts| <= 1
    requires forall i | 0 <= i < |posts| ::
      posts[i].port < PORTS && |before[posts[i].port]| <= 1 && !posts[i].msg.Telemetry?
    ensures
      || after[p] == before[p]
      || Items(after[p]) == Pacing.Run(Pacing.Port(Items(before[p]), false), [Pacing.Check, Pacing.PostPaced]).queue
  {
    assert after[p] == QueuedAll(before[p], MessagesOn(posts, p));
    OneOrNoneQueued(before[p], posts, p);
    if after[p] != before[p] {
      CheckedPost(Items(before[p]));
    }
  }

  lemma OneOrNoneQueued(q: seq<Msg>, posts: seq<Post>, p: nat)
    requires |posts| <= 1 && forall i | 0 <= i < |posts| :: !posts[i].msg.Telemetry?
    ensures var r := QueuedAll(q, MessagesOn(posts, p));
      || r == q
      || (posts != [] && posts[0].port == p && r == Queued(q, posts[0].msg) &&
          (|q| < DEPTH ==> Items(r) == Items(q) + [Pacing.Paced]))
  {
    if posts != [] && posts[0].port == p {
      assert posts == [posts[0]];
      OnlyPost(q, posts[0]);
    } else {
      assert posts == [] || posts[1..] == [];
      assert MessagesOn(posts, p) == [];
    }
  }

  lemma OnlyPost(q: seq<Msg>, post: Post)
    ensures MessagesOn([post], post.port) == [post.msg]
    ensures QueuedAll(q, [post.msg]) == Queued(q, post.msg)
  {
    assert [post][1..] == [];
    QueuedOne(q, post.msg);
  }

  lemma QueuedOne(q: seq<Msg>, m: Msg)
    ensures QueuedAll(q, [m]) == Queued(q, m)
  {
    assert [m][1..] == [];
  }

  lemma CheckedPost(q: seq<Pacing.Item>)
    requires |q| <= 1
    ensures Pacing.Run(Pacing.Port(q, false), [Pacing.Check, Pacing.PostPaced]).queue == q + [Pacing.Paced]
  {
    var checked := Pacing.Port(q, true);
    assert [Pacing.Check, Pacing.PostPaced][1..] == [Pacing.PostPaced] && [Pacing.PostPaced][1..] == [];
    assert Pacing.Run(checked, [Pacing.PostPaced]) == Pacing.Next(checked, Pacing.PostPaced);
  }

  /**
   Ports take turns: one with work and at most one item waiting in its queue is served by
   this pass or, if that serves the other port, by the next, whatever is there by then.
  */
  lemma PortsTakeTurns(
    v: Server, g: Geometry, c: Card, queues: seq<seq<Msg>>, d: Card, later: seq<seq<Msg>>, p: nat)
    requires ValidServer(v) && |queues| == |later| == PORTS && p < PORTS
    requires (v.listings[p].active || v.streams[p].active) && |queues[p]| <= 1 && |later[p]| <= 1
    ensures var w := Pass(v, g, c, Room(queues)).0;
      || Pass(v, g, c, Room(queues)) == Serve(v, g, c, p)
      || (HasWork(w, p) && Pass(w, g, d, Room(later)) == Serve(w, g, d, p))
  {
    var q := 1 - p;
    if v.nextPort == p {
      PassServes(v, g, c, Room(queues), 0);
    } else if HasWork(v, q) && Room(queues)[q] {
      PassServes(v, g, c, Room(queues), 0);
      TurnPasses(v, g, c, q);
      PassServes(Serve(v, g, c, q).0, g, d, Room(later), 0);
    } else {
      assert !Servable(v, Room(queues), 0);
      PassServes(v, g, c, Room(queues), 1);
    }
  }

  /** Serving one port makes it the other's turn, and leaves the other's work as it was. */
  lemma TurnPasses(v: Server, g: Geometry, c: Card, q: nat)
    requires ValidServer(v) && q < PORTS
    ensures var w := Serve(v, g, c, q).0;
      w.nextPort == 1 - q && w.listings[1 - q] == v.listings[1 - q] && w.streams[1 - q] == v.streams[1 - q]
  {
  }
}
