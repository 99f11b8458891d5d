/**
 Every download delivers the bytes its file held when the request arrived, whatever is
 logged, rotated, requested or cut short on either port meanwhile.
*/
module DownloadSafety {
  import opened Cards
  import opened RingSpec
  import opened RingSafety
  import opened RingBounds
  import opened LogFormat
  import opened DownloadSpec

  // -------------------------------------------------------------------------
  // What a request should be answered with
  // -------------------------------------------------------------------------

  /** A request, and what its slot held when it arrived ([] if the id names no file). */
  datatype Request = Request(id: u16, ofs: u32, count: u32, file: Bytes)

  function Available(r: Request): nat {
    if r.ofs < |r.file| then |r.file| - r.ofs else 0
  }

  /** How many bytes the request is answered with. */
  function Span(r: Request): nat {
    if r.count < Available(r) then r.count else Available(r)
  }

  /** Whether the answer runs to the end of the file, and so has to say so. */
  predicate ToEnd(r: Request) {
    r.count >= Available(r)
  }

  function AnswerLength(r: Request): nat {
    if r.file == [] then 1 else if ToEnd(r) then Span(r) / CHUNK + 1 else (Span(r) + CHUNK - 1) / CHUNK
  }

  /** Where message `i` of the answer stops, counted from the request's offset. */
  function StopOf(r: Request, i: nat): nat {
    if (i + 1) * CHUNK < Span(r) then (i + 1) * CHUNK else Span(r)
  }

  function AnswerData(r: Request, i: nat): Bytes {
    if i * CHUNK < Span(r) then r.file[r.ofs + i * CHUNK..r.ofs + StopOf(r, i)] else []
  }

  predicate Fits(r: Request) {
    |r.file| < 0x1_0000_0000
  }

  lemma AnswerInRange(r: Request, i: nat)
    requires i < AnswerLength(r) && Fits(r)
    ensures i * CHUNK <= Span(r)
    ensures r.ofs + i * CHUNK < 0x1_0000_0000
  {
  }

  /** The whole answer: a request for a missing file gets one empty message. */
  function Answer(r: Request): (ms: seq<Msg>)
    requires Fits(r)
    ensures |ms| == AnswerLength(r)
  {
    seq(AnswerLength(r), i requires 0 <= i < AnswerLength(r) =>
      AnswerInRange(r, i); Data(r.id, r.ofs + i * CHUNK, AnswerData(r, i)))
  }

  function Joined90(ms: seq<Msg>): Bytes {
    if ms == [] then [] else (if ms[0].Data? then ms[0].data else []) + Joined90(ms[1..])
  }

  lemma {:induction false} JoinedSnoc(ms: seq<Msg>, m: Msg)
    ensures Joined90(ms + [m]) == Joined90(ms) + if m.Data? then m.data else []
  {
    if ms == [] {
      assert ms + [m] == [m] && [m][1..] == [];
    } else {
      assert (ms + [m])[0] == ms[0] && (ms + [m])[1..] == ms[1..] + [m];
      JoinedSnoc(ms[1..], m);
    }
  }

  lemma AnswerJoinsStep(r: Request, k: nat)
    requires Fits(r) && k < AnswerLength(r)
    ensures Joined90(Answer(r)[..k + 1]) == Joined90(Answer(r)[..k]) + AnswerData(r, k)
  {
    var last := Answer(r)[k];
    AnswerGrows(r, k, last);
    JoinedSnoc(Answer(r)[..k], last);
    assert last.Data? && last.data == AnswerData(r, k);
  }

  /** The first `k` messages carry the range as far as they reach. */
  predicate JoinsUpTo(r: Request, k: nat)
    requires Fits(r) && k <= AnswerLength(r) && Span(r) > 0
  {
    Joined90(Answer(r)[..k]) == r.file[r.ofs..r.ofs + Reached(r, k)]
  }

  lemma JoinsOneMore(r: Request, k: nat)
    requires Fits(r) && k < AnswerLength(r) && Span(r) > 0 && JoinsUpTo(r, k)
    ensures JoinsUpTo(r, k + 1)
  {
    AnswerJoinsStep(r, k);
    DataExtends(r, k);
  }

  lemma JoinsNone(r: Request)
    requires Fits(r) && Span(r) > 0
    ensures JoinsUpTo(r, 0)
  {
    assert Answer(r)[..0] == [] && Reached(r, 0) == 0;
  }

  lemma {:induction false} AnswerJoins(r: Request, k: nat)
    requires Fits(r) && k <= AnswerLength(r) && Span(r) > 0
    ensures JoinsUpTo(r, k)
  {
    if k == 0 {
      JoinsNone(r);
    } else {
      AnswerJoins(r, k - 1);
      JoinsOneMore(r, k - 1);
    }
  }

  /** Where the first `k` messages stop, counted from the request's offset. */
  function Reached(r: Request, k: nat): nat {
    if k * CHUNK < Span(r) then k * CHUNK else Span(r)
  }

  lemma DataExtends(r: Request, k: nat)
    requires Span(r) > 0
    ensures r.file[r.ofs..r.ofs + Reached(r, k)] + AnswerData(r, k) == r.file[r.ofs..r.ofs + Reached(r, k + 1)]
  {
    if k * CHUNK < Span(r) {
      assert Reached(r, k) == k * CHUNK && Reached(r, k + 1) == StopOf(r, k);
      SlicesMeet(r.file, r.ofs, r.ofs + k * CHUNK, r.ofs + StopOf(r, k));
    } else {
      assert AnswerData(r, k) == [];
    }
  }

  lemma SlicesMeet(b: Bytes, from: nat, mid: nat, to: nat)
    requires from <= mid <= to <= |b|
    ensures b[from..mid] + b[mid..to] == b[from..to]
  {
  }

  /**
   The answer tiles the requested range in strides of 90 with no gap or overlap. One that
   runs to the end of the file holds exactly one message shorter than 90 bytes, its last;
   one that stops short of it holds no empty message.
  */
  lemma AnswerTilesTheRange(r: Request)
    requires Fits(r) && r.file != []
    ensures Joined90(Answer(r)) == if Span(r) == 0 then [] else r.file[r.ofs..r.ofs + Span(r)]
    ensures forall i | 0 <= i < AnswerLength(r) ::
      Answer(r)[i].id == r.id && Answer(r)[i].ofs == r.ofs + i * 90 &&
      (i + 1 < AnswerLength(r) ==> |Answer(r)[i].data| == 90)
    ensures ToEnd(r) ==> Answer(r) != [] && |Answer(r)[AnswerLength(r) - 1].data| < 90
    ensures !ToEnd(r) ==> forall i | 0 <= i < AnswerLength(r) :: 0 < |Answer(r)[i].data|
  {
    AnswerIsTheRange(r);
    forall i | 0 <= i < AnswerLength(r)
      ensures i + 1 < AnswerLength(r) ==> |Answer(r)[i].data| == CHUNK
      ensures i + 1 == AnswerLength(r) && ToEnd(r) ==> |Answer(r)[i].data| < CHUNK
      ensures !ToEnd(r) ==> 0 < |Answer(r)[i].data|
    {
      ChunkLength(r, i);
    }
  }

  lemma AnswerIsTheRange(r: Request)
    requires Fits(r) && r.file != []
    ensures Joined90(Answer(r)) == if Span(r) == 0 then [] else r.file[r.ofs..r.ofs + Span(r)]
  {
    assert Answer(r)[..AnswerLength(r)] == Answer(r);
    if Span(r) > 0 {
      AnswerJoins(r, AnswerLength(r));
    } else if ToEnd(r) {
      assert Answer(r)[1..] == [];
    } else {
      assert Answer(r) == [];
    }
  }

  lemma ChunkLength(r: Request, i: nat)
    requires r.file != [] && i < AnswerLength(r)
    ensures i + 1 < AnswerLength(r) ==> |AnswerData(r, i)| == CHUNK
    ensures i + 1 == AnswerLength(r) && ToEnd(r) ==> |AnswerData(r, i)| < CHUNK
    ensures !ToEnd(r) ==> 0 < |AnswerData(r, i)|
  {
  }

  // -------------------------------------------------------------------------
  // The world of a download
  // -------------------------------------------------------------------------

  datatype Status =
    | Running
    | Finished     // the whole answer was posted
    | Stopped      // by a LOG_REQUEST_END
    | Reused       // the file's slot was reused for the log

  /** The latest request on a port, and the log data posted there since. */
  datatype Track = NoRequest | Track(req: Request, sent: seq<Msg>, status: Status)

  datatype World = World(server: Server, sys: Sys, tracks: seq<Track>)

  datatype Happening =
    | AskList(port: nat, start: u16, end: u16)
    | AskData(port: nat, id: u16, ofs: u32, count: u32)
    | AskEnd(port: nat)
    | Log(rec: Bytes, chunks: seq<Bytes>)   // a record for the ring, which may rotate
    | ServePass(room: seq<bool>)            // one pass, each port's queue having room or not

  predicate ValidHappening(h: Happening) {
    match h
    case AskList(p, _, _) => p < PORTS
    case AskData(p, _, _, _) => p < PORTS
    case AskEnd(p) => p < PORTS
    case Log(_, _) => true
    case ServePass(room) => |room| == PORTS
  }

  function DataOn(posts: seq<Post>, p: nat): seq<Msg> {
    if posts == [] then []
    else (if posts[0].port == p && posts[0].msg.Data? then [posts[0].msg] else []) + DataOn(posts[1..], p)
  }

  /** A track after some posts, given whether its stream is still going and why it would end. */
  function Tracked(t: Track, posts: seq<Post>, p: nat, active: bool, why: Status): Track {
    if t.NoRequest? then t
    else t.(sent := t.sent + DataOn(posts, p), status := if t.status == Running && !active then why else t.status)
  }

  predicate ValidWorld(w: World) {
    ValidServer(w.server) && |w.tracks| == PORTS
  }

  function FileOf(g: Geometry, c: Card, id: u16): Bytes {
    if 0 <= id - 1 < g.n then Content(c, id - 1) else []
  }

  function SetTracks(w: World, server: Server, sys: Sys, posts: seq<Post>, why: Status): (r: World)
    requires ValidWorld(w) && ValidServer(server)
    ensures ValidWorld(r)
  {
    World(server, sys, [Tracked(w.tracks[0], posts, 0, server.streams[0].active, why),
                        Tracked(w.tracks[1], posts, 1, server.streams[1].active, why)])
  }

  function NextWorld(g: Geometry, w: World, h: Happening): (r: World)
    requires ValidWorld(w) && ValidHappening(h)
    ensures ValidWorld(r)
  {
    match h
    case AskList(p, start, end) => w.(server := StartListing(w.server, p, start, end))
    case AskData(p, id, ofs, count) =>
      w.(server := StartStream(w.server, g, w.sys.card, p, id, ofs, count),
         tracks := w.tracks[p := Track(Request(id, ofs, count, FileOf(g, w.sys.card, id)), [], Running)])
    case AskEnd(p) => SetTracks(w, EndStream(w.server, p), w.sys, [], Stopped)
    case Log(rec, chunks) =>
      var sys := Next(g, w.sys, Done(CallWrite(rec, chunks)));
      if w.sys.ram.None? || sys.ram.None? || sys.ram.value.slot == w.sys.ram.value.slot then w.(sys := sys)
      else
        var (server, posts) := Rotated(w.server, sys.ram.value.slot);
        SetTracks(w, server, sys, posts, Reused)
    case ServePass(room) =>
      var (server, posts) := Pass(w.server, g, w.sys.card, room);
      SetTracks(w, server, w.sys, posts, Finished)
  }

  function Worlds(g: Geometry, w: World, hs: seq<Happening>): (r: World)
    requires ValidWorld(w) && forall i | 0 <= i < |hs| :: ValidHappening(hs[i])
    ensures ValidWorld(r)
    decreases |hs|
  {
    if hs == [] then w else Worlds(g, NextWorld(g, w, hs[0]), hs[1..])
  }

  // -------------------------------------------------------------------------
  // The invariant
  // -------------------------------------------------------------------------

  /** A running stream has posted the first `k` messages of its answer and stands after them. */
  predicate Follows(g: Geometry, c: Card, s: Stream, r: Request, k: nat)
    requires Fits(r)
  {
    && s.active && s.id == r.id && s.absent == (r.file == []) && k <= AnswerLength(r)
    && (s.absent ==> k == 0 && s.pos == r.ofs)
    && (!s.absent ==>
        && s.slot == r.id - 1 && 0 <= s.slot < g.n
        && Present(c, s.slot) && r.file <= Content(c, s.slot)
        && s.toFileEnd == ToEnd(r)
        && s.end == (if ToEnd(r) then |r.file| else r.ofs + r.count)
        && s.pos == r.ofs + (if k * CHUNK < Span(r) then k * CHUNK else Span(r))
        && s.sentAny == (k > 0)
        && (k > 0 ==> (k - 1) * CHUNK < Span(r) && s.lastCount == |AnswerData(r, k - 1)|))
  }

  /** Where a download that has sent `k` messages has got to, which is what its notice gives. */
  function NoticeAt(r: Request, k: nat): nat {
    if r.file == [] then r.ofs else r.ofs + Reached(r, k)
  }

  predicate PortOk(g: Geometry, c: Card, s: Stream, t: Track) {
    match t
    case NoRequest => !s.active
    case Track(r, sent, status) =>
      Fits(r) &&
      match status
      case Running => sent <= Answer(r) && Follows(g, c, s, r, |sent|)
      case Finished => !s.active && sent == Answer(r)
      case Stopped => !s.active && sent <= Answer(r)
      case Reused =>
        !s.active && sent != [] && sent[..|sent| - 1] <= Answer(r) &&
        sent[|sent| - 1] == Data(r.id, NoticeAt(r, |sent| - 1), [])
  }

  /** The handle belongs to an active download of a real file, and sits where that stands. */
  predicate ReaderOk(v: Server)
    requires ValidServer(v)
  {
    v.reader.Reading? ==>
      v.reader.port < PORTS &&
      var s := v.streams[v.reader.port];
      s.active && !s.absent && v.reader.slot == s.slot && v.reader.pos == s.pos
  }

  predicate CardOk(g: Geometry, s: Sys, P: nat, L: nat) {
    && 2 <= g.n <= 128 && NotFullMax(g) + P + L < 0x1_0000_0000
    && Settled(g, s, P) && SmallFiles(s.card, NotFullMax(g) + P + L)
  }

  predicate WorldOk(g: Geometry, w: World, P: nat, L: nat) {
    && ValidWorld(w) && CardOk(g, w.sys, P, L) && ReaderOk(w.server)
    && (forall p | 0 <= p < PORTS :: PortOk(g, w.sys.card, w.server.streams[p], w.tracks[p]))
  }

  // -------------------------------------------------------------------------
  // Requests
  // -------------------------------------------------------------------------

  lemma AskDataOk(g: Geometry, w: World, p: nat, id: u16, ofs: u32, count: u32, P: nat, L: nat)
    requires WorldOk(g, w, P, L) && p < PORTS
    ensures WorldOk(g, NextWorld(g, w, AskData(p, id, ofs, count)), P, L)
  {
    var c := w.sys.card;
    var r := Request(id, ofs, count, FileOf(g, c, id));
    assert |r.file| <= NotFullMax(g) + P + L by {
      if 0 <= id - 1 < g.n { assert |Content(c, id - 1)| <= NotFullMax(g) + P + L; }
    }
    var v := NextWorld(g, w, AskData(p, id, ofs, count)).server;
    EndReleases(w.server, p);
    assert v.streams[1 - p] == w.server.streams[1 - p];
    assert PortOk(g, c, w.server.streams[1 - p], w.tracks[1 - p]);
    StartFollows(g, c, w.server, p, r);
    assert [] <= Answer(r);
  }

  /** A stream just started stands at the start of its answer. */
  lemma StartFollows(g: Geometry, c: Card, v: Server, p: nat, r: Request)
    requires ValidServer(v) && p < PORTS && g.n <= 128 && Fits(r) && r.file == FileOf(g, c, r.id)
    ensures Follows(g, c, StartStream(v, g, c, p, r.id, r.ofs, r.count).streams[p], r, 0)
  {
  }

  lemma DataOnOne(p: nat, msgs: seq<Msg>, q: nat)
    requires |msgs| <= 1 && forall i | 0 <= i < |msgs| :: msgs[i].Data?
    ensures DataOn(ToPort(p, msgs), q) == if p == q then msgs else []
  {
    if msgs != [] {
      assert ToPort(p, msgs)[1..] == [];
    }
  }

  lemma EntryIsNoData(p: nat, m: Msg, q: nat)
    requires !m.Data?
    ensures DataOn(ToPort(p, [m]), q) == []
  {
    assert ToPort(p, [m])[1..] == [];
  }

  lemma SameTrack(t: Track)
    requires t.Track?
    ensures t.(sent := t.sent + []) == t
  {
  }

  // -------------------------------------------------------------------------
  // Serving
  // -------------------------------------------------------------------------

  lemma AnswerGrows(r: Request, k: nat, m: Msg)
    requires Fits(r) && k < AnswerLength(r) && m == Answer(r)[k]
    ensures Answer(r)[..k] + [m] == Answer(r)[..k + 1]
  {
  }

  /** PortOk as a value, for lemmas that only pass it on. */
  ghost function PortSound(g: Geometry, c: Card): (Stream, Track) -> bool {
    (s: Stream, t: Track) => PortOk(g, c, s, t)
  }

  /** After one service the stream follows its answer, or has finished it; nothing else has changed. */
  ghost predicate Followed(g: Geometry, c: Card, v: Server, p: nat, t: Track)
    requires ValidServer(v) && p < PORTS && t.Track?
  {
    var (w, msgs) := ServeStream(v, c, p);
    && |msgs| <= 1 && (forall i | 0 <= i < |msgs| :: msgs[i].Data?)
    && ReaderOk(w) && w.streams == v.streams[p := w.streams[p]] && w.listings == v.listings
    && PortSound(g, c)(w.streams[p],
         t.(sent := t.sent + msgs, status := if w.streams[p].active then Running else Finished))
  }

  lemma ServeFollows(g: Geometry, c: Card, v: Server, p: nat, t: Track)
    requires ValidServer(v) && p < PORTS && ReaderOk(v) && t.Track? && t.status == Running
    requires PortSound(g, c)(v.streams[p], t)
    ensures Followed(g, c, v, p, t)
  {
    var s := v.streams[p];
    if s.absent {
      AbsentFollows(g, c, v, p, t);
    } else if s.pos >= s.end {
      EndFollows(g, c, v, p, t);
    } else if v.reader.Reading? && v.reader.port != p {
      WaitFollows(g, c, v, p, t);
    } else {
      ReadFollows(g, c, v, p, t);
    }
  }

  lemma WaitFollows(g: Geometry, c: Card, v: Server, p: nat, t: Track)
    requires ValidServer(v) && p < PORTS && ReaderOk(v) && t.Track? && t.status == Running
    requires PortSound(g, c)(v.streams[p], t) && !v.streams[p].absent && v.streams[p].pos < v.streams[p].end
    requires v.reader.Reading? && v.reader.port != p
    ensures Followed(g, c, v, p, t)
  {
    SameTrack(t);
    StreamIsActive(g, c, v.streams[p], t);
    assert ServeStream(v, c, p) == (v, []);
  }

  lemma StreamIsActive(g: Geometry, c: Card, s: Stream, t: Track)
    requires PortSound(g, c)(s, t) && t.Track? && t.status == Running
    ensures s.active && (!s.absent ==> s.slot >= 0 && Present(c, s.slot))
  {
  }

  lemma ReadFollows(g: Geometry, c: Card, v: Server, p: nat, t: Track)
    requires ValidServer(v) && p < PORTS && ReaderOk(v) && t.Track? && t.status == Running
    requires PortSound(g, c)(v.streams[p], t) && !v.streams[p].absent && v.streams[p].pos < v.streams[p].end
    requires v.reader.Reading? ==> v.reader.port == p
    ensures Followed(g, c, v, p, t)
  {
    var s := v.streams[p];
    StreamIsActive(g, c, s, t);
    var u := if v.reader.Reading? then v else v.(reader := Reading(p, s.slot, s.pos));
    assert ServeStream(v, c, p) == ReadChunk(u, c, p);
    ChunkFollows(g, c, u, p, t);
  }

  lemma AbsentFollows(g: Geometry, c: Card, v: Server, p: nat, t: Track)
    requires ValidServer(v) && p < PORTS && ReaderOk(v) && t.Track? && t.status == Running
    requires PortSound(g, c)(v.streams[p], t) && v.streams[p].absent
    ensures Followed(g, c, v, p, t)
  {
    var s := v.streams[p];
    AbsentCompletes(g, c, s, t);
    FinishedPort(g, c, s, t, [Data(s.id, s.pos, [])]);
  }

  lemma AbsentCompletes(g: Geometry, c: Card, s: Stream, t: Track)
    requires t.Track? && t.status == Running && PortOk(g, c, s, t) && s.absent
    ensures Fits(t.req) && t.sent + [Data(s.id, s.pos, [])] == Answer(t.req)
  {
    assert |t.sent| == 0;
  }

  lemma FinishedPort(g: Geometry, c: Card, s: Stream, t: Track, msgs: seq<Msg>)
    requires t.Track? && Fits(t.req) && t.sent + msgs == Answer(t.req)
    ensures PortSound(g, c)(s.(active := false), t.(sent := t.sent + msgs, status := Finished))
  {
  }

  lemma EndFollows(g: Geometry, c: Card, v: Server, p: nat, t: Track)
    requires ValidServer(v) && p < PORTS && ReaderOk(v) && t.Track? && t.status == Running
    requires PortSound(g, c)(v.streams[p], t) && !v.streams[p].absent && v.streams[p].pos >= v.streams[p].end
    ensures Followed(g, c, v, p, t)
  {
    var s := v.streams[p];
    EndReleases(v, p);
    EndCompletes(g, c, s, t.req, t.sent);
    FinishedPort(g, c, s, t, ServeStream(v, c, p).1);
  }

  lemma EndCompletes(g: Geometry, c: Card, s: Stream, r: Request, sent: seq<Msg>)
    requires Fits(r) && sent <= Answer(r) && Follows(g, c, s, r, |sent|) && !s.absent && s.pos >= s.end
    ensures var last := s.toFileEnd && (!s.sentAny || s.lastCount == CHUNK);
      sent + (if last then [Data(s.id, s.pos, [])] else []) == Answer(r)
  {
    var k := |sent|;
    assert sent == Answer(r)[..k];
    PastTheEnd(r, k, s);
    FinishedLength(r, k, s.lastCount);
    if AnswerLength(r) == k {
      assert sent + [] == sent == Answer(r);
    } else {
      AnswerGrows(r, k, Data(s.id, s.pos, []));
    }
  }

  lemma PastTheEnd(r: Request, k: nat, s: Stream)
    requires r.file != [] && s.pos >= s.end
    requires s.end == (if ToEnd(r) then |r.file| else r.ofs + r.count)
    requires s.pos == r.ofs + (if k * CHUNK < Span(r) then k * CHUNK else Span(r))
    ensures k * CHUNK >= Span(r) && s.pos == r.ofs + Span(r)
  {
  }

  lemma ChunkFollows(g: Geometry, c: Card, v: Server, p: nat, t: Track)
    requires ValidServer(v) && p < PORTS && ReaderOk(v) && t.Track? && t.status == Running
    requires PortSound(g, c)(v.streams[p], t) && !v.streams[p].absent && v.streams[p].pos < v.streams[p].end
    requires v.reader.Reading? && v.reader.port == p
    ensures var (w, msgs) := ReadChunk(v, c, p);
      && |msgs| == 1 && msgs[0].Data? && ReaderOk(w) && w.listings == v.listings
      && w.streams == v.streams[p := w.streams[p]] && w.streams[p].active
      && PortSound(g, c)(w.streams[p], t.(sent := t.sent + msgs))
  {
    var s := v.streams[p];
    var r, k := t.req, |t.sent|;
    assert Follows(g, c, s, r, k) && v.reader.slot == s.slot && v.reader.pos == s.pos;
    ChunkArithmetic(r, k, s);
    ChunkResult(c, v, p, r, k);
    ReaderAdvances(v, p, r, k);
    NextFollows(g, c, s, r, k);
    OneMoreSent(g, c, AfterChunk(s, r, k), t, Data(r.id, s.pos, AnswerData(r, k)));
  }

  lemma OneMoreSent(g: Geometry, c: Card, s: Stream, t: Track, m: Msg)
    requires t.Track? && t.status == Running && Fits(t.req) && t.sent <= Answer(t.req)
    requires |t.sent| < AnswerLength(t.req) && m == Answer(t.req)[|t.sent|]
    requires Follows(g, c, s, t.req, |t.sent| + 1)
    ensures PortSound(g, c)(s, t.(sent := t.sent + [m]))
  {
    AnswerGrows(t.req, |t.sent|, m);
    assert t.sent == Answer(t.req)[..|t.sent|];
  }

  /** A stream once message `k` has gone. */
  function AfterChunk(s: Stream, r: Request, k: nat): (n: Stream)
    requires s.pos + |AnswerData(r, k)| < 0x1_0000_0000
  {
    s.(pos := s.pos + |AnswerData(r, k)|, sentAny := true, lastCount := |AnswerData(r, k)|)
  }

  /** The server once the port holding the handle has sent message `k`. */
  function Advanced(v: Server, p: nat, r: Request, k: nat): (w: Server)
    requires ValidServer(v) && p < PORTS && v.reader.Reading?
    requires v.streams[p].pos + |AnswerData(r, k)| < 0x1_0000_0000
    ensures ValidServer(w) && w.listings == v.listings && w.reader.Reading?
    ensures w.streams == v.streams[p := AfterChunk(v.streams[p], r, k)]
  {
    v.(streams := v.streams[p := AfterChunk(v.streams[p], r, k)],
       reader := v.reader.(pos := v.reader.pos + |AnswerData(r, k)|))
  }

  lemma ReaderAdvances(v: Server, p: nat, r: Request, k: nat)
    requires ValidServer(v) && p < PORTS && ReaderOk(v) && v.reader.Reading? && v.reader.port == p
    requires v.streams[p].pos + |AnswerData(r, k)| < 0x1_0000_0000
    ensures ReaderOk(Advanced(v, p, r, k))
  {
  }

  lemma NextFollows(g: Geometry, c: Card, s: Stream, r: Request, k: nat)
    requires Fits(r) && Follows(g, c, s, r, k) && !s.absent && s.pos < s.end
    ensures s.pos + |AnswerData(r, k)| < 0x1_0000_0000
    ensures Follows(g, c, AfterChunk(s, r, k), r, k + 1)
  {
    ChunkArithmetic(r, k, s);
  }

  lemma ChunkResult(c: Card, v: Server, p: nat, r: Request, k: nat)
    requires ValidServer(v) && p < PORTS && v.reader.Reading? && v.reader.port == p
    requires v.streams[p].pos < v.streams[p].end && v.streams[p].slot >= 0 && v.streams[p].id == r.id
    requires v.reader.slot == v.streams[p].slot && v.reader.pos == v.streams[p].pos
    requires r.file <= Content(c, v.streams[p].slot) && k * CHUNK < Span(r) && v.streams[p].pos == r.ofs + k * CHUNK
    requires |AnswerData(r, k)| == StopOf(r, k) - k * CHUNK && r.ofs + StopOf(r, k) <= |r.file|
    requires |AnswerData(r, k)| ==
      if v.streams[p].end - v.streams[p].pos > CHUNK then CHUNK else v.streams[p].end - v.streams[p].pos
    ensures v.streams[p].pos + |AnswerData(r, k)| < 0x1_0000_0000
    ensures ReadChunk(v, c, p) == (Advanced(v, p, r, k), [Data(r.id, v.streams[p].pos, AnswerData(r, k))])
  {
    var s := v.streams[p];
    SliceOfPrefix(r.file, Content(c, s.slot), s.pos, s.pos + |AnswerData(r, k)|);
  }

  lemma SliceOfPrefix(a: Bytes, b: Bytes, from: nat, to: nat)
    requires a <= b && from <= to <= |a|
    ensures a[from..to] == b[from..to]
  {
  }

  /** The chunk due next is message `k` of the answer. */
  lemma ChunkArithmetic(r: Request, k: nat, s: Stream)
    requires Fits(r) && r.file != [] && k <= AnswerLength(r) && s.pos < s.end
    requires s.end == (if ToEnd(r) then |r.file| else r.ofs + r.count)
    requires s.pos == r.ofs + (if k * CHUNK < Span(r) then k * CHUNK else Span(r))
    ensures k * CHUNK < Span(r) && s.pos == r.ofs + k * CHUNK && k + 1 <= AnswerLength(r)
    ensures StopOf(r, k) - k * CHUNK == if s.end - s.pos > CHUNK then CHUNK else s.end - s.pos
    ensures 0 < StopOf(r, k) - k * CHUNK == |AnswerData(r, k)|
    ensures r.ofs + StopOf(r, k) <= |r.file| && s.pos + (StopOf(r, k) - k * CHUNK) == r.ofs + StopOf(r, k)
  {
  }

  /** Once past the range, the answer is complete but for the empty message that may be due. */
  lemma FinishedLength(r: Request, k: nat, last: nat)
    requires r.file != [] && k * CHUNK >= Span(r) && k <= AnswerLength(r)
    requires k > 0 ==> (k - 1) * CHUNK < Span(r) && last == |AnswerData(r, k - 1)|
    ensures AnswerLength(r) == if ToEnd(r) && (k == 0 || last == CHUNK) then k + 1 else k
    ensures AnswerLength(r) == k + 1 ==> Span(r) == k * CHUNK && AnswerData(r, k) == []
  {
  }

  /** The same, as the tracks of the world record it. */
  lemma StreamServed(g: Geometry, c: Card, v: Server, p: nat, t: Track)
    requires ValidServer(v) && p < PORTS && ReaderOk(v) && PortSound(g, c)(v.streams[p], t) && v.streams[p].active
    ensures var (w, msgs) := ServeStream(v, c, p);
      && ReaderOk(w) && w.streams[1 - p] == v.streams[1 - p] && DataOn(ToPort(p, msgs), 1 - p) == []
      && PortSound(g, c)(w.streams[p], Tracked(t, ToPort(p, msgs), p, w.streams[p].active, Finished))
  {
    var (w, msgs) := ServeStream(v, c, p);
    ActiveIsRunning(g, c, v.streams[p], t);
    ServeFollows(g, c, v, p, t);
    DataOnOne(p, msgs, p);
    DataOnOne(p, msgs, 1 - p);
  }

  lemma ActiveIsRunning(g: Geometry, c: Card, s: Stream, t: Track)
    requires PortOk(g, c, s, t) && s.active
    ensures t.Track? && t.status == Running
  {
  }

  lemma ListingServed(g: Geometry, c: Card, v: Server, p: nat, q: nat)
    requires ValidServer(v) && p < PORTS
    ensures var (w, msgs) := ServeListing(v, g, c, p);
      w.streams == v.streams && w.reader == v.reader && DataOn(ToPort(p, msgs), q) == []
  {
    var (w, msgs) := ServeListing(v, g, c, p);
    if msgs != [] {
      EntryIsNoData(p, msgs[0], q);
      assert msgs == [msgs[0]];
    }
  }

  /** Posting nothing on a port and leaving its stream alone leaves its track as it was. */
  lemma TrackStays(g: Geometry, c: Card, s: Stream, t: Track, posts: seq<Post>, q: nat, why: Status)
    requires PortOk(g, c, s, t) && DataOn(posts, q) == []
    ensures Tracked(t, posts, q, s.active, why) == t
  {
    if t.Track? { SameTrack(t); }
  }

  /** A world is in order when its parts are. */
  lemma WorldFromBoth(g: Geometry, w: World, v: Server, sys: Sys, posts: seq<Post>, why: Status, P: nat, L: nat)
    requires ValidWorld(w) && ValidServer(v) && CardOk(g, sys, P, L) && ReaderOk(v)
    requires PortOk(g, sys.card, v.streams[0], Tracked(w.tracks[0], posts, 0, v.streams[0].active, why))
    requires PortOk(g, sys.card, v.streams[1], Tracked(w.tracks[1], posts, 1, v.streams[1].active, why))
    ensures WorldOk(g, SetTracks(w, v, sys, posts, why), P, L)
  {
    var r := SetTracks(w, v, sys, posts, why);
    assert r.tracks[0] == Tracked(w.tracks[0], posts, 0, v.streams[0].active, why);
    assert r.tracks[1] == Tracked(w.tracks[1], posts, 1, v.streams[1].active, why);
  }

  lemma WorldFromPorts(
    g: Geometry, w: World, v: Server, sys: Sys, posts: seq<Post>, why: Status, p: nat, q: nat, P: nat, L: nat)
    requires ValidWorld(w) && ValidServer(v) && CardOk(g, sys, P, L) && ReaderOk(v) && p < PORTS && q == 1 - p
    requires PortSound(g, sys.card)(v.streams[p], Tracked(w.tracks[p], posts, p, v.streams[p].active, why))
    requires PortSound(g, sys.card)(v.streams[q], Tracked(w.tracks[q], posts, q, v.streams[q].active, why))
    ensures WorldOk(g, SetTracks(w, v, sys, posts, why), P, L)
  {
    if p == 0 {
      WorldFromBoth(g, w, v, sys, posts, why, P, L);
    } else {
      WorldFromBoth(g, w, v, sys, posts, why, P, L);
    }
  }

  /** WorldOk as a value, for lemmas that only pass it on. */
  ghost function WorldSound(g: Geometry, P: nat, L: nat): World -> bool {
    (w: World) => WorldOk(g, w, P, L)
  }

  lemma PortsOk(g: Geometry, w: World, p: nat, P: nat, L: nat)
    requires ValidWorld(w) && WorldSound(g, P, L)(w) && p < PORTS
    ensures PortOk(g, w.sys.card, w.server.streams[p], w.tracks[p])
  {
  }

  lemma PortsSound(g: Geometry, w: World, p: nat, P: nat, L: nat)
    requires ValidWorld(w) && WorldSound(g, P, L)(w) && p < PORTS
    ensures PortSound(g, w.sys.card)(w.server.streams[p], w.tracks[p])
  {
  }

  /** Serving a listing leaves a port's download as it was. */
  lemma ListingPassParts(g: Geometry, c: Card, v: Server, p: nat, q: nat, t: Track)
    requires ValidServer(v) && p < PORTS && q < PORTS && PortSound(g, c)(v.streams[q], t) && v.listings[p].active
    ensures PortSound(g, c)(Serve(v, g, c, p).0.streams[q],
      Tracked(t, Serve(v, g, c, p).1, q, Serve(v, g, c, p).0.streams[q].active, Finished))
    ensures ReaderOk(v) ==> ReaderOk(Serve(v, g, c, p).0)
  {
    ListingServed(g, c, v, p, q);
    TrackStays(g, c, v.streams[q], t, Serve(v, g, c, p).1, q, Finished);
  }

  lemma ServeListingOk(g: Geometry, w: World, p: nat, v: Server, posts: seq<Post>, P: nat, L: nat)
    requires ValidWorld(w) && WorldSound(g, P, L)(w) && p < PORTS && w.server.listings[p].active
    requires ValidServer(v) && (v, posts) == Serve(w.server, g, w.sys.card, p)
    ensures WorldSound(g, P, L)(SetTracks(w, v, w.sys, posts, Finished))
  {
    PortsSound(g, w, 0, P, L);
    PortsSound(g, w, 1, P, L);
    ReaderIsOk(g, w, P, L);
    ListingPassParts(g, w.sys.card, w.server, p, 0, w.tracks[0]);
    ListingPassParts(g, w.sys.card, w.server, p, 1, w.tracks[1]);
    ServedWorld(g, w, v, posts, 0, 1, P, L);
  }

  /** What serving a stream leaves of each port. */
  lemma StreamPassParts(g: Geometry, c: Card, v: Server, p: nat, t: Track)
    requires ValidServer(v) && p < PORTS && ReaderOk(v) && PortSound(g, c)(v.streams[p], t)
    requires !v.listings[p].active && v.streams[p].active
    ensures ReaderOk(Serve(v, g, c, p).0)
    ensures PortSound(g, c)(Serve(v, g, c, p).0.streams[p],
      Tracked(t, Serve(v, g, c, p).1, p, Serve(v, g, c, p).0.streams[p].active, Finished))
    ensures Serve(v, g, c, p).0.streams[1 - p] == v.streams[1 - p] && DataOn(Serve(v, g, c, p).1, 1 - p) == []
  {
    var (u, msgs) := ServeStream(v, c, p);
    StreamServed(g, c, v, p, t);
    ReaderIgnoresTurn(u, 1 - p);
    ServeIsStream(g, c, v, p);
  }

  lemma ServeIsStream(g: Geometry, c: Card, v: Server, p: nat)
    requires ValidServer(v) && p < PORTS && !v.listings[p].active
    ensures Serve(v, g, c, p) == (ServeStream(v, c, p).0.(nextPort := 1 - p), ToPort(p, ServeStream(v, c, p).1))
  {
  }

  lemma OtherPortStays(g: Geometry, c: Card, s: Stream, t: Track, posts: seq<Post>, q: nat, why: Status)
    requires PortOk(g, c, s, t) && DataOn(posts, q) == []
    ensures PortOk(g, c, s, Tracked(t, posts, q, s.active, why))
  {
    TrackStays(g, c, s, t, posts, q, why);
  }

  lemma OtherPortServed(g: Geometry, c: Card, v: Server, p: nat, t: Track)
    requires ValidServer(v) && p < PORTS && PortSound(g, c)(v.streams[1 - p], t)
    requires Serve(v, g, c, p).0.streams[1 - p] == v.streams[1 - p] && DataOn(Serve(v, g, c, p).1, 1 - p) == []
    ensures PortSound(g, c)(Serve(v, g, c, p).0.streams[1 - p],
      Tracked(t, Serve(v, g, c, p).1, 1 - p, Serve(v, g, c, p).0.streams[1 - p].active, Finished))
  {
    OtherPortStays(g, c, v.streams[1 - p], t, Serve(v, g, c, p).1, 1 - p, Finished);
  }

  /** A service that leaves the ports and the handle in order leaves the world so. */
  lemma ServedWorld(g: Geometry, w: World, v: Server, posts: seq<Post>, p: nat, q: nat, P: nat, L: nat)
    requires ValidWorld(w) && WorldSound(g, P, L)(w) && ValidServer(v) && ReaderOk(v) && p < PORTS && q == 1 - p
    requires PortSound(g, w.sys.card)(v.streams[p], Tracked(w.tracks[p], posts, p, v.streams[p].active, Finished))
    requires PortSound(g, w.sys.card)(v.streams[q], Tracked(w.tracks[q], posts, q, v.streams[q].active, Finished))
    ensures WorldSound(g, P, L)(SetTracks(w, v, w.sys, posts, Finished))
  {
    WorldFromPorts(g, w, v, w.sys, posts, Finished, p, q, P, L);
  }

  lemma ReaderIsOk(g: Geometry, w: World, P: nat, L: nat)
    requires ValidWorld(w) && WorldSound(g, P, L)(w)
    ensures ReaderOk(w.server)
  {
  }

  lemma ServeStreamOk(g: Geometry, w: World, p: nat, v: Server, posts: seq<Post>, P: nat, L: nat)
    requires ValidWorld(w) && WorldSound(g, P, L)(w) && p < PORTS
    requires !w.server.listings[p].active && w.server.streams[p].active
    requires ValidServer(v) && (v, posts) == Serve(w.server, g, w.sys.card, p)
    ensures WorldSound(g, P, L)(SetTracks(w, v, w.sys, posts, Finished))
  {
    var c := w.sys.card;
    var q := 1 - p;
    PortsSound(g, w, p, P, L);
    PortsSound(g, w, q, P, L);
    ReaderIsOk(g, w, P, L);
    StreamPassParts(g, c, w.server, p, w.tracks[p]);
    OtherPortServed(g, c, w.server, p, w.tracks[q]);
    ServedWorld(g, w, v, posts, p, q, P, L);
  }

  lemma ReaderIgnoresTurn(v: Server, next: nat)
    requires ValidServer(v) && next < PORTS && ReaderOk(v)
    ensures ReaderOk(v.(nextPort := next))
  {
  }

  lemma ServeOk(g: Geometry, w: World, p: nat, v: Server, posts: seq<Post>, P: nat, L: nat)
    requires ValidWorld(w) && WorldSound(g, P, L)(w) && p < PORTS && HasWork(w.server, p)
    requires ValidServer(v) && (v, posts) == Serve(w.server, g, w.sys.card, p)
    ensures WorldSound(g, P, L)(SetTracks(w, v, w.sys, posts, Finished))
  {
    if w.server.listings[p].active {
      ServeListingOk(g, w, p, v, posts, P, L);
    } else {
      ServeStreamOk(g, w, p, v, posts, P, L);
    }
  }

  lemma PassOk(g: Geometry, w: World, room: seq<bool>, P: nat, L: nat)
    requires WorldOk(g, w, P, L) && |room| == PORTS
    ensures WorldOk(g, NextWorld(g, w, ServePass(room)), P, L)
  {
    PassSound(g, w, room, P, L);
  }

  lemma PassSound(g: Geometry, w: World, room: seq<bool>, P: nat, L: nat)
    requires ValidWorld(w) && WorldSound(g, P, L)(w) && |room| == PORTS
    ensures WorldSound(g, P, L)(NextWorld(g, w, ServePass(room)))
  {
    var v := w.server;
    var i := if Servable(v, room, 0) then 0 else 1;
    if Servable(v, room, i) {
      PassServes(v, g, w.sys.card, room, i);
      ServePassOk(g, w, room, (v.nextPort + i) % 2, P, L);
    } else {
      PassIdles(v, g, w.sys.card, room);
      IdlePassOk(g, w, room, P, L);
    }
  }

  lemma ServePassOk(g: Geometry, w: World, room: seq<bool>, p: nat, P: nat, L: nat)
    requires ValidWorld(w) && WorldSound(g, P, L)(w) && |room| == PORTS && p < PORTS && HasWork(w.server, p)
    requires Pass(w.server, g, w.sys.card, room) == Serve(w.server, g, w.sys.card, p)
    ensures WorldSound(g, P, L)(NextWorld(g, w, ServePass(room)))
  {
    var (v, posts) := Serve(w.server, g, w.sys.card, p);
    ServeOk(g, w, p, v, posts, P, L);
    PassedWorld(g, w, room, v, posts);
  }

  lemma PassedWorld(g: Geometry, w: World, room: seq<bool>, v: Server, posts: seq<Post>)
    requires ValidWorld(w) && |room| == PORTS && ValidServer(v) && (v, posts) == Pass(w.server, g, w.sys.card, room)
    ensures NextWorld(g, w, ServePass(room)) == SetTracks(w, v, w.sys, posts, Finished)
  {
  }

  lemma IdlePassOk(g: Geometry, w: World, room: seq<bool>, P: nat, L: nat)
    requires ValidWorld(w) && WorldSound(g, P, L)(w) && |room| == PORTS
    requires Pass(w.server, g, w.sys.card, room) == (w.server, [])
    ensures WorldSound(g, P, L)(NextWorld(g, w, ServePass(room)))
  {
    IdleOk(g, w, P, L);
    PassedWorld(g, w, room, w.server, []);
  }

  /** A pass that finds nothing to do changes nothing. */
  lemma IdleOk(g: Geometry, w: World, P: nat, L: nat)
    requires WorldOk(g, w, P, L)
    ensures WorldOk(g, SetTracks(w, w.server, w.sys, [], Finished), P, L)
  {
    PortsOk(g, w, 0, P, L);
    PortsOk(g, w, 1, P, L);
    TrackStays(g, w.sys.card, w.server.streams[0], w.tracks[0], [], 0, Finished);
    TrackStays(g, w.sys.card, w.server.streams[1], w.tracks[1], [], 1, Finished);
    WorldFromBoth(g, w, w.server, w.sys, [], Finished, P, L);
  }

  // -------------------------------------------------------------------------
  // Logging meanwhile
  // -------------------------------------------------------------------------

  /** A file that has not been removed holds what it held, and possibly more. */
  predicate Grew(before: Card, after: Card, slot: nat) {
    Content(before, slot) <= Content(after, slot) && (Present(before, slot) ==> Present(after, slot))
  }

  /** Writing a record only makes files grow, except the slot a rotation moves into. */
  lemma WriteGrows(g: Geometry, s: Sys, rec: Bytes, chunks: seq<Bytes>, P: nat, L: nat)
    requires CardOk(g, s, P, L) && s.ram.Some? && |rec| <= L && |Joined(chunks)| <= P
    ensures var t := Next(g, s, Done(CallWrite(rec, chunks)));
      && t.ram.Some?
      && (forall slot: nat | slot != t.ram.value.slot :: Grew(s.card, t.card, slot))
      && (t.ram.value.slot == s.ram.value.slot ==> Grew(s.card, t.card, s.ram.value.slot))
  {
    var t := Next(g, s, Done(CallWrite(rec, chunks)));
    var ram := s.ram.value;
    if rec != [] {
      AppendSmall(g, s, rec, P, L);
      if |Content(s.card, ram.slot)| + |ram.pending| + |rec| >= g.size {
        RotationGrows(g, s, rec, chunks);
      }
    }
  }

  lemma RotationGrows(g: Geometry, s: Sys, rec: Bytes, chunks: seq<Bytes>)
    requires g.n >= 2 && |s.card.slots| == g.n && s.ram.Some? && Present(s.card, s.ram.value.slot) && rec != []
    requires |Content(s.card, s.ram.value.slot)| + |s.ram.value.pending| + |rec| >= g.size
    ensures var t := Next(g, s, Done(CallWrite(rec, chunks)));
      && t.ram.Some? && t.ram.value.slot != s.ram.value.slot
      && (forall slot: nat | slot != t.ram.value.slot :: Grew(s.card, t.card, slot))
  {
    var ram := s.ram.value;
    PlaceIs(g, ram.slot, 1);
    RotationEffect(g, s, rec, chunks);
    GrewByUpdates(s.card, Next(g, s, Done(CallWrite(rec, chunks))).card, ram.slot, Place(g, ram.slot, 1),
                  ram.pending + rec, Joined(chunks));
  }

  lemma GrewByUpdates(c: Card, d: Card, from: nat, to: nat, tail: Bytes, head: Bytes)
    requires Present(c, from) && to < |c.slots| && to != from
    requires d.slots == c.slots[from := Some(Content(c, from) + tail)][to := Some(head)]
    ensures forall slot: nat | slot != to :: Grew(c, d, slot)
  {
  }

  lemma PortGrows(g: Geometry, c: Card, d: Card, s: Stream, t: Track)
    requires PortOk(g, c, s, t)
    requires s.active && !s.absent && s.slot >= 0 ==> Grew(c, d, s.slot)
    ensures PortOk(g, d, s, t)
  {
  }

  /** A rotation into a slot being served ends that download, with a notice, before another read. */
  lemma ReuseOk(g: Geometry, c: Card, d: Card, v: Server, after: nat, p: nat, t: Track)
    requires ValidServer(v) && p < PORTS && PortOk(g, c, v.streams[p], t)
    requires forall slot: nat | slot != after :: Grew(c, d, slot)
    ensures var (w, msgs) := Reuse(v, after, p);
      && |msgs| <= 1 && (forall i | 0 <= i < |msgs| :: msgs[i].Data?)
      && w.listings == v.listings && w.streams == v.streams[p := w.streams[p]]
      && (ReaderOk(v) ==> ReaderOk(w))
      && (t.NoRequest? ==> msgs == [] && PortOk(g, d, w.streams[p], t))
      && (t.Track? ==> PortOk(g, d, w.streams[p],
            t.(sent := t.sent + msgs,
               status := if t.status == Running && !w.streams[p].active then Reused else t.status)))
  {
    var (w, msgs) := Reuse(v, after, p);
    if msgs == [] {
      PortGrows(g, c, d, v.streams[p], t);
      if t.Track? { SameTrack(t); }
    } else {
      ReusedPort(g, c, d, v.streams[p], t, msgs[0]);
      if ReaderOk(v) { EndReleases(v, p); }
    }
  }

  lemma ReusedPort(g: Geometry, c: Card, d: Card, s: Stream, t: Track, m: Msg)
    requires PortOk(g, c, s, t) && s.active && !s.absent && m == Data(s.id, s.pos, [])
    ensures t.Track? && t.status == Running
    ensures PortOk(g, d, s.(active := false), t.(sent := t.sent + [m], status := Reused))
  {
    assert (t.sent + [m])[..|t.sent|] == t.sent;
  }

  lemma LogOk(g: Geometry, w: World, rec: Bytes, chunks: seq<Bytes>, P: nat, L: nat)
    requires WorldOk(g, w, P, L) && |rec| <= L && |Joined(chunks)| <= P
    ensures WorldOk(g, NextWorld(g, w, Log(rec, chunks)), P, L)
  {
    var s := w.sys;
    var t := Next(g, s, Done(CallWrite(rec, chunks)));
    EventSmall(g, s, Done(CallWrite(rec, chunks)), P, L);
    if s.ram.Some? {
      WriteGrows(g, s, rec, chunks, P, L);
      if t.ram.value.slot == s.ram.value.slot {
        StillOk(g, w, t, P, L);
      } else {
        RotatedOk(g, w, t, P, L);
      }
    } else {
      assert t.card == s.card;
    }
  }

  lemma StillOk(g: Geometry, w: World, t: Sys, P: nat, L: nat)
    requires WorldOk(g, w, P, L) && CardOk(g, t, P, L)
    requires forall slot: nat :: Grew(w.sys.card, t.card, slot)
    ensures WorldOk(g, w.(sys := t), P, L)
  {
    forall p | 0 <= p < PORTS ensures PortOk(g, t.card, w.server.streams[p], w.tracks[p]) {
      PortGrows(g, w.sys.card, t.card, w.server.streams[p], w.tracks[p]);
    }
  }

  lemma RotatedOk(g: Geometry, w: World, t: Sys, P: nat, L: nat)
    requires WorldOk(g, w, P, L) && CardOk(g, t, P, L) && t.ram.Some?
    requires forall slot: nat | slot != t.ram.value.slot :: Grew(w.sys.card, t.card, slot)
    ensures var (server, posts) := Rotated(w.server, t.ram.value.slot);
      WorldOk(g, SetTracks(w, server, t, posts, Reused), P, L)
  {
    var after := t.ram.value.slot;
    var (v, posts) := Rotated(w.server, after);
    RotatedReader(w.server, after);
    PortsOk(g, w, 0, P, L);
    PortsOk(g, w, 1, P, L);
    RotatedPort(g, w.sys.card, t.card, w.server, after, 0, w.tracks[0]);
    RotatedPort(g, w.sys.card, t.card, w.server, after, 1, w.tracks[1]);
    WorldFromBoth(g, w, v, t, posts, Reused, P, L);
  }

  /** A rotation's effect on each port is as if it were the only one. */
  lemma RotatedParts(v: Server, after: nat, p: nat)
    requires ValidServer(v) && p < PORTS
    ensures var (w, posts) := Rotated(v, after);
      w.streams[p] == Reuse(v, after, p).0.streams[p] && DataOn(posts, p) == Reuse(v, after, p).1
  {
    var (v0, m0) := Reuse(v, after, 0);
    var (v1, m1) := Reuse(v0, after, 1);
    BothPorts(m0, m1);
  }

  lemma RotatedReader(v: Server, after: nat)
    requires ValidServer(v) && ReaderOk(v)
    ensures ReaderOk(Rotated(v, after).0)
  {
    ReuseReader(v, after, 0);
    ReuseReader(Reuse(v, after, 0).0, after, 1);
  }

  lemma ReuseReader(v: Server, after: nat, p: nat)
    requires ValidServer(v) && p < PORTS && ReaderOk(v)
    ensures ReaderOk(Reuse(v, after, p).0)
  {
    EndReleases(v, p);
  }

  lemma RotatedPort(g: Geometry, c: Card, d: Card, v: Server, after: nat, p: nat, t: Track)
    requires ValidServer(v) && p < PORTS && PortOk(g, c, v.streams[p], t)
    requires forall slot: nat | slot != after :: Grew(c, d, slot)
    ensures var (w, posts) := Rotated(v, after);
      PortOk(g, d, w.streams[p], Tracked(t, posts, p, w.streams[p].active, Reused))
  {
    ReuseOk(g, c, d, v, after, p, t);
    RotatedParts(v, after, p);
    var (w, posts) := Rotated(v, after);
    ReusedTrack(g, d, w.streams[p], t, posts, Reuse(v, after, p).1, p);
  }

  /** What ReuseOk says of a port, as the track records it. */
  lemma ReusedTrack(g: Geometry, c: Card, s: Stream, t: Track, posts: seq<Post>, msgs: seq<Msg>, p: nat)
    requires DataOn(posts, p) == msgs
    requires t.NoRequest? ==> PortOk(g, c, s, t)
    requires t.Track? ==> PortOk(g, c, s,
      t.(sent := t.sent + msgs, status := if t.status == Running && !s.active then Reused else t.status))
    ensures PortOk(g, c, s, Tracked(t, posts, p, s.active, Reused))
  {
  }

  lemma BothPorts(m0: seq<Msg>, m1: seq<Msg>)
    requires |m0| <= 1 && |m1| <= 1
    requires (forall i | 0 <= i < |m0| :: m0[i].Data?) && (forall i | 0 <= i < |m1| :: m1[i].Data?)
    ensures DataOn(ToPort(0, m0) + ToPort(1, m1), 0) == m0 && DataOn(ToPort(0, m0) + ToPort(1, m1), 1) == m1
  {
    var posts := ToPort(0, m0) + ToPort(1, m1);
    if m0 == [] {
      assert posts == ToPort(1, m1);
      DataOnOne(1, m1, 0);
      DataOnOne(1, m1, 1);
    } else {
      assert posts[1..] == ToPort(1, m1);
      DataOnOne(1, m1, 0);
      DataOnOne(1, m1, 1);
    }
  }

  // -------------------------------------------------------------------------
  // Every run
  // -------------------------------------------------------------------------

  /** Preambles of at most P bytes, records of at most L. */
  predicate HappeningWithin(h: Happening, P: nat, L: nat) {
    ValidHappening(h) && (h.Log? ==> |h.rec| <= L && |Joined(h.chunks)| <= P)
  }

  predicate AllWithin(hs: seq<Happening>, P: nat, L: nat) {
    forall i | 0 <= i < |hs| :: ValidHappening(hs[i]) && HappeningWithin(hs[i], P, L)
  }

  lemma HappeningOk(g: Geometry, w: World, h: Happening, P: nat, L: nat)
    requires WorldOk(g, w, P, L) && HappeningWithin(h, P, L)
    ensures WorldOk(g, NextWorld(g, w, h), P, L)
  {
    match h
    case AskList(_, _, _) =>
    case AskData(p, id, ofs, count) => AskDataOk(g, w, p, id, ofs, count, P, L);
    case AskEnd(p) => AskEndOk(g, w, p, P, L);
    case Log(rec, chunks) => LogOk(g, w, rec, chunks, P, L);
    case ServePass(room) => PassOk(g, w, room, P, L);
  }

  lemma AskEndOk(g: Geometry, w: World, p: nat, P: nat, L: nat)
    requires WorldOk(g, w, P, L) && p < PORTS
    ensures WorldOk(g, NextWorld(g, w, AskEnd(p)), P, L)
  {
    var c := w.sys.card;
    var v := EndStream(w.server, p);
    var q := 1 - p;
    PortsOk(g, w, p, P, L);
    PortsOk(g, w, q, P, L);
    EndedPort(g, c, w.server.streams[p], w.tracks[p], p);
    TrackStays(g, c, w.server.streams[q], w.tracks[q], [], q, Stopped);
    EndReleases(w.server, p);
    WorldFromPorts(g, w, v, w.sys, [], Stopped, p, q, P, L);
  }

  lemma EndedPort(g: Geometry, c: Card, s: Stream, t: Track, p: nat)
    requires PortOk(g, c, s, t)
    ensures PortOk(g, c, s.(active := false), Tracked(t, [], p, false, Stopped))
  {
    if t.Track? { SameTrack(t); }
  }

  lemma EndReleases(v: Server, p: nat)
    requires ValidServer(v) && p < PORTS && ReaderOk(v)
    ensures ReaderOk(EndStream(v, p))
    ensures EndStream(v, p).streams[1 - p] == v.streams[1 - p] && EndStream(v, p).listings == v.listings
    ensures v.reader.Reading? && v.reader.port == 1 - p ==> EndStream(v, p).reader == v.reader
  {
  }

  /** The task as it starts: nothing asked for, nothing held. */
  function FreshServer(): (v: Server)
    ensures ValidServer(v)
  {
    var listing := Listing(false, 0, 0, 0);
    var stream := Stream(false, false, 0, 0, 0, 0, false, false, 0);
    Server([listing, listing], [stream, stream], Closed, 0)
  }

  function FreshWorld(sys: Sys): (w: World)
    ensures ValidWorld(w)
  {
    World(FreshServer(), sys, [NoRequest, NoRequest])
  }

  lemma {:induction false} WorldsOk(g: Geometry, w: World, hs: seq<Happening>, P: nat, L: nat)
    requires WorldOk(g, w, P, L) && AllWithin(hs, P, L)
    ensures WorldOk(g, Worlds(g, w, hs), P, L)
    decreases |hs|
  {
    if hs != [] {
      HappeningOk(g, w, hs[0], P, L);
      WorldsOk(g, NextWorld(g, w, hs[0]), hs[1..], P, L);
    }
  }

  /**
   For any interleaving of log writes, rotations, passes and requests on both ports, what
   has been posted for the latest request on a port is a prefix of its answer, which holds
   the bytes the file held when the request arrived; all of it, if the download finished;
   and followed by one empty message if the file's slot was reused meanwhile.
  */
  lemma DownloadsAreFaithful(g: Geometry, sys: Sys, hs: seq<Happening>, P: nat, L: nat, p: nat)
    requires CardOk(g, sys, P, L) && p < PORTS
    requires AllWithin(hs, P, L)
    ensures var t := Worlds(g, FreshWorld(sys), hs).tracks[p];
      t.Track? ==>
        Fits(t.req) &&
        match t.status
        case Running => t.sent <= Answer(t.req)
        case Finished => t.sent == Answer(t.req)
        case Stopped => t.sent <= Answer(t.req)
        case Reused =>
          t.sent != [] && t.sent[..|t.sent| - 1] <= Answer(t.req) &&
          t.sent[|t.sent| - 1] == Data(t.req.id, t.req.ofs + Reached(t.req, |t.sent| - 1), [])
  {
    WorldsOk(g, FreshWorld(sys), hs, P, L);
    var w := Worlds(g, FreshWorld(sys), hs);
    assert PortOk(g, w.sys.card, w.server.streams[p], w.tracks[p]);
  }
}
