/**
 A listing and a download agree: every entry names a file that its id downloads, at the size
 and with the time the entry gives, and every such file in range is listed.
*/
module DownloadListing {
  import opened Cards
  import opened RingSpec
  import opened LogFormat
  import opened DownloadSpec
  import opened DownloadSafety
  import opened DownloadProgress

  /** What an entry says is so: of its own file, and of the files there are. */
  ghost predicate Truthful(g: Geometry, c: Card, start: u16, end: u16, m: Msg) {
    && m.Entry? && m.entryId < 0x1_0000 && start <= m.entryId <= end
    && 0 < m.size == |FileOf(g, c, m.entryId)| % 0x1_0000_0000
    && m.timeUtc == SlotTimeUtc(c, m.entryId - 1)
    && m.numLogs == |FilesBelow(c, g.n)|
    && 1 <= m.lastLogNum <= g.n && Present(c, m.lastLogNum - 1)
    && (forall s: nat | s < g.n && Present(c, s) :: s + 1 <= m.lastLogNum)
  }

  lemma EntryIsTruthful(g: Geometry, c: Card, l: Listing, slot: nat)
    requires slot < g.n < SLOT_COUNTS && Listed(c, l, slot)
    ensures Truthful(g, c, l.start, l.end, EntryFor(g, c, slot)) && EntryFor(g, c, slot).entryId == slot + 1
  {
    LogCountIsFiles(c, g.n);
    assert Present(c, slot);
  }

  /** Truthful entries for ids above `from`, ascending. */
  ghost predicate TruthfulFrom(g: Geometry, c: Card, l: Listing, from: nat, ms: seq<Msg>) {
    && (forall i | 0 <= i < |ms| :: Truthful(g, c, l.start, l.end, ms[i]) && ms[i].entryId > from)
    && (forall i, j | 0 <= i < j < |ms| :: ms[i].entryId < ms[j].entryId)
  }

  lemma OneMoreEntry(g: Geometry, c: Card, l: Listing, from: nat, rest: seq<Msg>)
    requires from < g.n < SLOT_COUNTS && Listed(c, l, from) && TruthfulFrom(g, c, l, from + 1, rest)
    ensures TruthfulFrom(g, c, l, from, [EntryFor(g, c, from)] + rest)
  {
    EntryIsTruthful(g, c, l, from);
    var e := EntryFor(g, c, from);
    var ms := [e] + rest;
    assert forall i | 0 < i < |ms| :: ms[i] == rest[i - 1];
  }

  lemma SameEntries(g: Geometry, c: Card, l: Listing, from: nat, ms: seq<Msg>)
    requires TruthfulFrom(g, c, l, from + 1, ms)
    ensures TruthfulFrom(g, c, l, from, ms)
  {
  }

  lemma EntriesWith(g: Geometry, c: Card, l: Listing, from: nat)
    requires from < g.n && Listed(c, l, from)
    ensures Entries(g, c, l, from) == [EntryFor(g, c, from)] + Entries(g, c, l, from + 1)
  {
  }

  /** What is listed from a slot on, entry by entry. */
  lemma {:induction false} EntriesAreTruthful(g: Geometry, c: Card, l: Listing, from: nat)
    requires g.n < SLOT_COUNTS
    ensures TruthfulFrom(g, c, l, from, Entries(g, c, l, from))
    decreases g.n - from
  {
    if from < g.n {
      var rest := Entries(g, c, l, from + 1);
      EntriesAreTruthful(g, c, l, from + 1);
      if Listed(c, l, from) {
        OneMoreEntry(g, c, l, from, rest);
        EntriesWith(g, c, l, from);
      } else {
        SameEntries(g, c, l, from, rest);
        EntriesWithout(g, c, l, from);
      }
    }
  }

  lemma {:induction false} EveryFileIsAmong(g: Geometry, c: Card, l: Listing, from: nat, id: u16)
    requires g.n < SLOT_COUNTS && from < id && l.start <= id <= l.end && |FileOf(g, c, id)| % 0x1_0000_0000 > 0
    ensures exists i :: 0 <= i < |Entries(g, c, l, from)| && Names(Entries(g, c, l, from)[i], id)
    decreases g.n - from
  {
    var ms := Entries(g, c, l, from);
    var rest := Entries(g, c, l, from + 1);
    if id == from + 1 {
      assert Names(ms[0], id);
    } else {
      EveryFileIsAmong(g, c, l, from + 1, id);
      var i :| 0 <= i < |rest| && Names(rest[i], id);
      assert Names(ms[i + |ms| - |rest|], id);
    }
  }

  predicate Names(m: Msg, id: u16) {
    m.Entry? && m.entryId == id
  }

  /**
   A listing from `start` to `end`: each entry is in range and tells the truth about the file
   its id downloads, ids ascend so none is told twice, and no file in range that has a size
   is left out.
  */
  lemma ListingAgreesWithDownloads(g: Geometry, c: Card, v: Server, p: nat, start: u16, end: u16)
    requires ValidServer(v) && p < PORTS && g.n < SLOT_COUNTS
    ensures var ms := ListingPosts(g, c, StartListing(v, p, start, end), p);
      && (forall i | 0 <= i < |ms| :: Truthful(g, c, start, end, ms[i]))
      && (forall i, j | 0 <= i < j < |ms| :: ms[i].entryId < ms[j].entryId)
      && (forall id: u16 | start <= id <= end && |FileOf(g, c, id)| % 0x1_0000_0000 > 0 ::
            exists i :: 0 <= i < |ms| && Names(ms[i], id))
  {
    var w := StartListing(v, p, start, end);
    var ms := Entries(g, c, w.listings[p], 0);
    ListingReportsEachFile(g, c, w, p);
    EntriesAreTruthful(g, c, w.listings[p], 0);
    forall id: u16 | start <= id <= end && |FileOf(g, c, id)| % 0x1_0000_0000 > 0
      ensures exists i :: 0 <= i < |ms| && Names(ms[i], id)
    {
      EveryFileIsAmong(g, c, w.listings[p], 0, id);
    }
  }

  /** Asking for all of a listed file is answered with as many bytes as its entry says, the file's own. */
  lemma EntryIsDownloadable(g: Geometry, c: Card, start: u16, end: u16, m: Msg)
    requires Truthful(g, c, start, end, m) && |FileOf(g, c, m.entryId)| < 0x1_0000_0000
    ensures var r := Request(m.entryId, 0, 0xFFFF_FFFF, FileOf(g, c, m.entryId));
      Fits(r) && Joined90(Answer(r)) == FileOf(g, c, m.entryId) && |Joined90(Answer(r))| == m.size
  {
    var file := EntrySize(g, c, start, end, m);
    WholeFileAnswer(Request(m.entryId, 0, 0xFFFF_FFFF, file));
  }

  lemma EntrySize(g: Geometry, c: Card, start: u16, end: u16, m: Msg) returns (file: Bytes)
    requires Truthful(g, c, start, end, m) && |FileOf(g, c, m.entryId)| < 0x1_0000_0000
    ensures m.entryId < 0x1_0000 && file == FileOf(g, c, m.entryId) && |file| == m.size > 0
  {
    file := FileOf(g, c, m.entryId);
  }

  lemma WholeFileAnswer(r: Request)
    requires Fits(r) && r.file != [] && r.ofs == 0 && r.count >= |r.file|
    ensures Joined90(Answer(r)) == r.file
  {
    AnswerIsTheRange(r);
    assert Span(r) == |r.file| && r.file[0..|r.file|] == r.file;
  }
}
