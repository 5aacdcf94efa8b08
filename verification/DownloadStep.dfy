/** The steps of a download on values: what is left to read, what the segments put into the buffers,
    and what a listing must hold. */
module DownloadSteps {
  import opened Segmentation
  import opened Readers
  import opened ReadEnds
  import opened ReadPasses
  import opened ReadSchedulers
  import Budgets
  import opened Wrapping
  import opened ByteFrames
  import opened SegmentFiles
  import opened SegmentNames
  import opened Catalogs
  import opened StoredReads
  import opened UploadSteps

  type ByteSource = Source<seq<byte>>

  /** The discovery horizon and active-file limit, and the buffering target. */
  const WINDOW := Window(PIPELINE_FRAMES, PIPELINE_FILES * FRAMES_PER_FILE, PIPELINE_FILES)

  function SourcesOf(files: Files): seq<ByteSource> {
    seq(|files|, k requires 0 <= k < |files| => Source(k, Cut(files[k].data, BLOCK)))
  }

  /** The files as the segments find them, by number. */
  function DataOf(files: Files): seq<seq<byte>> {
    seq(|files|, k requires 0 <= k < |files| => files[k].data)
  }

  function FirstReader(modulus: Modulus): ByteReader {
    Init(0, PIPELINE_FRAMES, modulus, WINDOW)
  }

  /** What has been sent once `k` of the frames have been delivered. */
  function Sent(frames: seq<seq<byte>>, k: nat, total: nat): seq<byte>
    requires k <= |frames|
  {
    var bytes := Flatten(frames[..k]);
    if total <= |bytes| then bytes[..total] else bytes
  }

  /** Which of the sources have been admitted, and which has been taken up but refused. */
  ghost predicate Feeding(admitted: seq<ByteSource>, sources: seq<ByteSource>, next: nat, waiting: Option<ByteSource>) {
    && |admitted| <= next <= |sources| && admitted == sources[..|admitted|]
    && next == |admitted| + (if waiting.Some? then 1 else 0)
    && (waiting.Some? ==> waiting.value == sources[|admitted|])
  }

  lemma {:induction false} SizeAppend(files: Files, e: Entry<seq<byte>>)
    ensures TotalSize(files + [e]) == TotalSize(files) + |e.data|
  {
    if files == [] {
      assert [e][1..] == [];
    } else {
      assert (files + [e])[1..] == files[1..] + [e];
      SizeAppend(files[1..], e);
    }
  }

  lemma NothingPicked()
    ensures Picked([]) == [] && TotalSize([]) == 0
  {
  }

  lemma PickedNext(listing: Files, i: nat)
    requires i < |listing|
    ensures Picked(listing[i..]) == (if IsSegment(listing[i].name) then [listing[i]] else []) + Picked(listing[i + 1..])
  {
  }

  /** A frame of the admitted sources is that frame of all sources. */
  lemma AdmittedFrame(admitted: seq<ByteSource>, sources: seq<ByteSource>, k: nat)
    requires |admitted| <= |sources| && admitted == sources[..|admitted|] && k < |Flatten(Contents(admitted))|
    ensures k < |Flatten(Contents(sources))| && Flatten(Contents(sources))[k] == Flatten(Contents(admitted))[k]
  {
    var rest := sources[|admitted|..];
    assert Contents(sources) == Contents(admitted) + Contents(rest);
    FlattenAppend(Contents(admitted), Contents(rest));
  }

  lemma SendStep(frames: seq<seq<byte>>, k: nat, total: nat)
    requires k < |frames| && |frames[k]| == BLOCK
    ensures var sent := Sent(frames, k, total);
            && |sent| <= total
            && Sent(frames, k + 1, total)
               == sent + frames[k][..if total - |sent| <= BLOCK then total - |sent| else BLOCK]
    ensures |Sent(frames, k + 1, total)| <= total
  {
    assert frames[..k + 1] == frames[..k] + [frames[k]];
    FlattenSnoc(frames[..k], frames[k]);
  }

  lemma {:induction false} SourceFrames(files: Files, sources: seq<ByteSource>)
    requires |files| == |sources| && forall k :: 0 <= k < |files| ==> sources[k].content == Cut(files[k].data, BLOCK)
    requires forall k :: 0 <= k < |files| ==> GoodSize(|files[k].data|)
    ensures Flatten(Flatten(Contents(sources))) == Joined(files)
    ensures forall k :: 0 <= k < |Flatten(Contents(sources))| ==> |Flatten(Contents(sources))[k]| == BLOCK
  {
    if files != [] {
      SourceFrames(files[1..], sources[1..]);
      assert Contents(sources)[1..] == Contents(sources[1..]);
      FlattenAppend(sources[0].content, Flatten(Contents(sources[1..])));
      CutIsWhole(files[0].data, BLOCK);
      WholeBlocks(files[0].data);
    }
  }

  lemma {:induction false} WholeBlocks(data: seq<byte>)
    requires |data| % BLOCK == 0
    ensures forall k :: 0 <= k < |Cut(data, BLOCK)| ==> |Cut(data, BLOCK)[k]| == BLOCK
    decreases |data|
  {
    if |data| > BLOCK {
      WholeBlocks(data[BLOCK..]);
    }
  }

  /** The frames of the sorted segments are whole blocks and join to what must be restored. */
  lemma SortedSources(total: nat, listing: Files)
    requires forall k :: 0 <= k < |Picked(listing)| ==> GoodSize(|Picked(listing)[k].data|)
    ensures var frames := Flatten(Contents(SourcesOf(Sort(Picked(listing)))));
            && (forall k :: 0 <= k < |frames| ==> |frames[k]| == BLOCK)
            && Sent(frames, |frames|, total) == Restored(total, listing)
    ensures AllStand(SourcesOf(Sort(Picked(listing))), DataOf(Sort(Picked(listing))))
    ensures forall k :: 0 <= k < |Sort(Picked(listing))| ==> GoodSize(|Sort(Picked(listing))[k].data|)
  {
    var sorted := Sort(Picked(listing));
    SortKeepsElements(Picked(listing));
    forall k | 0 <= k < |sorted|
      ensures GoodSize(|sorted[k].data|)
    {
      assert sorted[k] in multiset(sorted);
    }
    SourceFrames(sorted, SourcesOf(sorted));
    var frames := Flatten(Contents(SourcesOf(sorted)));
    assert frames[..|frames|] == frames;
  }

  lemma {:induction false} SortKeepsElements(s: Files)
    ensures multiset(Sort(s)) == multiset(s)
  {
    if s != [] {
      SortKeepsElements(s[1..]);
      InsertKeepsElements(s[0], Sort(s[1..]));
      assert s == [s[0]] + s[1..];
    }
  }

  lemma {:induction false} InsertKeepsElements(e: Entry<seq<byte>>, s: Files)
    ensures multiset(Insert(e, s)) == multiset(s) + multiset{e}
  {
    if s != [] && !Less(e.name, s[0].name) {
      InsertKeepsElements(e, s[1..]);
      assert s == [s[0]] + s[1..];
    }
  }

  // --- what the segments read ---------------------------------------------------------------------

  /** The frames that landed, in order of their positions. */
  function FramesIn(landed: map<nat, seq<byte>>, n: nat): seq<seq<byte>>
    requires forall p :: 0 <= p < n ==> p in landed
  {
    seq(n, p requires 0 <= p < n => landed[p])
  }

  /** Frames have landed in all positions up to some, and the first `total` bytes of them are `bytes`. */
  predicate SendsLanded(landed: map<nat, seq<byte>>, total: nat, bytes: seq<byte>) {
    && (forall p :: 0 <= p < |landed| ==> p in landed)
    && bytes == Sent(FramesIn(landed, |landed|), |landed|, total)
  }

  /** The run ended without a failure and read all the files on `disk` in their order. */
  ghost predicate ReadAllOf(q: Option<ByteReader>, disk: seq<seq<byte>>) {
    && q.Some? && q.value.terminated && !q.value.failed
    && AllStand(q.value.admitted, disk)
  }

  ghost predicate AllStand(sources: seq<ByteSource>, disk: seq<seq<byte>>) {
    |sources| == |disk| && forall k :: 0 <= k < |disk| ==> sources[k].name == k && Stands(sources[k], disk)
  }

  /** `events` is a complete reading of the files on `disk`, and whatever their segments did in it,
      the first `total` bytes they put into the reader's buffers are `bytes`. */
  ghost predicate Reads(r: ByteReader, events: seq<StoredReads.ByteEvent>, disk: seq<seq<byte>>, total: nat,
                        bytes: seq<byte>) {
    && ReadAllOf(Run(r, events), disk)
    && (forall segments, outs :: ReadRun(r, events, disk, segments, outs) ==>
          SendsLanded(Landed(r, events, outs), total, bytes))
    && (PlausibleRun(r, events, disk) ==> exists segments, outs :: ReadRun(r, events, disk, segments, outs))
  }

  lemma RunIsReal(r: ByteReader, events: seq<StoredReads.ByteEvent>, q: ByteReader, disk: seq<seq<byte>>,
                  sources: seq<ByteSource>, total: nat)
    requires Starts(r) && Run(r, events) == Some(q)
    requires q.admitted == sources && q.terminated && q.error.None? && q.delivered == 0 && AllStand(sources, disk)
    ensures var frames := Flatten(Contents(sources));
            Reads(r, events, disk, total, Sent(frames, |frames|, total))
  {
    hide Starts, Sent, Contents, Run, AllStand;
    StartsInv(r);
    EveryRunReadsSequentially(r, events, q);
    var frames := Flatten(Contents(sources));
    forall segments, outs | ReadRun(r, events, disk, segments, outs)
      ensures SendsLanded(Landed(r, events, outs), total, Sent(frames, |frames|, total))
    {
      OutputsAreReal(r, events, disk, segments, outs);
      LandedFrames(Landed(r, events, outs), frames);
    }
    if PlausibleRun(r, events, disk) {
      var segments, outs := EveryRunHasSegments(r, events, disk);
    }
  }

  lemma LandedFrames(landed: map<nat, seq<byte>>, frames: seq<seq<byte>>)
    requires Lists(landed, frames)
    ensures |landed| == |frames| && FramesIn(landed, |frames|) == frames
  {
    CountBelow(|frames|, landed.Keys);
    assert |landed.Keys| == |landed|;
  }

  lemma {:induction false} CountBelow(n: nat, keys: set<nat>)
    requires forall p: nat :: p in keys <==> p < n
    ensures |keys| == n
  {
    if n > 0 {
      CountBelow(n - 1, keys - {n - 1});
    } else {
      assert keys == {};
    }
  }

  // --- how many calls reading takes ----------------------------------------------------------------

  /** Positions must distinguish at least what can be live at a time. */
  const MIN_MODULUS: nat := PIPELINE_FILES * FRAMES_PER_FILE + FRAMES_PER_FILE

  /** No source is empty or longer than a segment. */
  predicate Segmented(sources: seq<ByteSource>) {
    forall k :: 0 <= k < |sources| ==> 0 < |sources[k].content| <= FRAMES_PER_FILE
  }

  ghost predicate Pulling(r: ByteReader, sources: seq<ByteSource>, next: nat, waiting: Option<ByteSource>) {
    && Feeding(r.admitted, sources, next, waiting) && (r.closed ==> r.admitted == sources)
    && r.window == WINDOW && r.maxRetries == 0 && r.delivered == 0
  }

  /** Polls with progress that sources not yet admitted will take. */
  function Unread(sources: seq<ByteSource>): nat {
    if sources == [] then 0 else 1 + |sources[0].content| + Unread(sources[1..])
  }

  /** Polls with progress that are left. */
  function Owed(r: ByteReader, sources: seq<ByteSource>): nat {
    Remaining(r) + if |r.admitted| <= |sources| then Unread(sources[|r.admitted|..]) else 0
  }

  lemma PushOwes(r: ByteReader, sources: seq<ByteSource>, file: ByteSource)
    requires r.maxRetries == 0 && |r.admitted| < |sources| && file == sources[|r.admitted|]
    ensures Owed(PushStep(r, file), sources) == Owed(r, sources)
  {
    PushAddsRest(r, file);
    assert sources[|r.admitted|..][1..] == sources[|r.admitted| + 1..];
  }

  lemma CloseOwes(r: ByteReader, sources: seq<ByteSource>)
    ensures Owed(r.(closed := true), sources) == Owed(r, sources)
  {
  }

  /** A source is refused only when the reader is full, has failed, or has too small positions. */
  lemma RefusedCause(r: ByteReader, file: ByteSource)
    requires Inv(r) && !r.closed && r.window == WINDOW && !Accepts(r, file) && (!r.terminated ==> !IsFull(r))
    requires 0 < |file.content| <= FRAMES_PER_FILE
    ensures r.failed || r.modulus < MIN_MODULUS
  {
    hide Layout, Recycling, Grant;
  }

  lemma FullHasFiles(r: ByteReader)
    requires Inv(r) && !r.terminated && IsFull(r) && r.window == WINDOW
    ensures r.files != []
  {
    hide Recycling, Grant, FileOk;
  }

  /** What one successful call spends. */
  lemma ReadSpends(init: ByteReader, h: seq<StoredReads.ByteEvent>, u: ByteReader, later: seq<StoredReads.ByteEvent>,
                   v: ByteReader, sources: seq<ByteSource>)
    requires Inv(init) && h <= later && Run(init, h) == Some(u) && Run(init, later) == Some(v)
    requires v.admitted == u.admitted && Smooth(later, |h|)
    ensures Owed(v, sources) + Polls(init, later, |h|) <= Owed(u, sources)
  {
    hide Inv, Run, Remaining;
    assert later[..|h|] == h;
    SmoothReadingEnds(init, later, |h|);
  }

  /** While polls succeed and the budget does not queue it, a reader with something to read is not
      told to wait. */
  lemma WaitNeedsPending(init: ByteReader, v: ByteReader, p: Budgets.Permit, events: seq<StoredReads.ByteEvent>,
                         from: nat)
    requires WaitCause(init, v, p, events, from) && !p.waiting && (v.closed || v.files != [])
    ensures !Smooth(events, from)
  {
    assert HeadAwaits(init, v, p, events, from);
    var k :| from <= k < |events| && PendingAt(events[k], 0);
  }

  lemma SmoothSince(h0: seq<StoredReads.ByteEvent>, h: seq<StoredReads.ByteEvent>, after: seq<StoredReads.ByteEvent>)
    requires h0 <= h <= after
    ensures Smooth(after, |h0|) ==> Smooth(h, |h0|) && Smooth(after, |h|)
  {
    forall k | |h0| <= k < |h|
      ensures h[k] == after[k]
    {
    }
  }

  /** A failure that was delivered or is stored is one a backend reported. */
  lemma FailedBy(init: ByteReader, events: seq<StoredReads.ByteEvent>, v: ByteReader)
    requires Inv(init) && !init.failed && Run(init, events) == Some(v)
    ensures v.failed || v.delivered > 0 ==> Fault(events, 0)
  {
    hide Run, Layout, Recycling, Grant;
    EveryRunKeepsInv(init, events);
    if v.failed {
      FailureNeedsFault(init, events);
    }
  }

  // --- what the methods of a download see ----------------------------------------------------------

  lemma PullingSeen(r: ByteReader, sources: seq<ByteSource>, next: nat, waiting: Option<ByteSource>)
    requires Pulling(r, sources, next, waiting)
    ensures |r.admitted| <= next <= |sources| && r.admitted == sources[..|r.admitted|]
    ensures next == |r.admitted| + (if waiting.Some? then 1 else 0)
    ensures waiting.Some? ==> waiting.value == sources[|r.admitted|] && !r.closed
    ensures r.closed ==> r.admitted == sources
    ensures r.window == WINDOW && r.maxRetries == 0 && r.delivered == 0
  {
  }

  lemma ClosedPulls(r: ByteReader, sources: seq<ByteSource>, next: nat)
    requires Pulling(r, sources, next, None) && next == |sources|
    ensures Pulling(r.(closed := true), sources, next, None)
  {
  }

  lemma PullsAgain(r: ByteReader, sources: seq<ByteSource>, next: nat, file: ByteSource)
    requires |r.admitted| < |sources| && file == sources[|r.admitted|] && next == |r.admitted| + 1 && !r.closed
    requires r.admitted == sources[..|r.admitted|] && r.window == WINDOW && r.maxRetries == 0 && r.delivered == 0
    ensures Pulling(r, sources, next, Some(file))
  {
  }

  lemma PullsNext(r: ByteReader, sources: seq<ByteSource>, next: nat, file: ByteSource)
    requires |r.admitted| < |sources| && file == sources[|r.admitted|] && next == |r.admitted| + 1 && !r.closed
    requires r.admitted == sources[..|r.admitted|] && r.window == WINDOW && r.maxRetries == 0 && r.delivered == 0
    ensures Pulling(PushStep(r, file), sources, next, None)
  {
  }

  lemma QuietYet(h: seq<StoredReads.ByteEvent>)
    ensures Quiet(h, |h|)
  {
  }

  lemma QuietOn(h0: seq<StoredReads.ByteEvent>, h: seq<StoredReads.ByteEvent>, after: seq<StoredReads.ByteEvent>)
    requires h0 <= h && Quiet(h, |h0|)
    ensures after == h + [CloseFiles] ==> h0 <= after && Quiet(after, |h0|)
    ensures h <= after && Quiet(after, |h|) ==> h0 <= after && Quiet(after, |h0|)
  {
    if h <= after && Quiet(after, |h|) {
      forall k | |h0| <= k < |after|
        ensures !after[k].PollFile?
      {
        if k < |h| {
          assert after[k] == h[k];
        }
      }
    }
  }

  /** A call that admits and closes nothing keeps what is being pulled. */
  lemma PullsOn(r: ByteReader, q: ByteReader, sources: seq<ByteSource>, next: nat, waiting: Option<ByteSource>)
    requires Pulling(r, sources, next, waiting)
    ensures (q.admitted == r.admitted && q.closed == r.closed && q.window == r.window && q.maxRetries == r.maxRetries
             && q.delivered == 0) ==> Pulling(q, sources, next, waiting)
  {
  }

  lemma CarriedPulls(r: ByteReader, q: ByteReader, sources: seq<ByteSource>, next: nat, waiting: Option<ByteSource>)
    requires Pulling(r, sources, next, waiting) && Carried(r, q) && q.maxRetries == r.maxRetries
    ensures Pulling(q, sources, next, waiting) && q.emitted == r.emitted
  {
  }

  lemma NothingSent(frames: seq<seq<byte>>, total: nat)
    ensures Sent(frames, 0, total) == []
  {
  }

  /** Enough calls to read all segments, if all polls succeed. */
  function PollsToDownload(files: Files): nat {
    |Flatten(Contents(SourcesOf(files)))| + Unread(SourcesOf(files))
  }

  lemma FirstPulls(modulus: Modulus, files: Files)
    requires forall k :: 0 <= k < |files| ==> GoodSize(|files[k].data|)
    ensures Pulling(FirstReader(modulus), SourcesOf(files), 0, None) && FirstReader(modulus).emitted == 0
    ensures Segmented(SourcesOf(files)) && Inv(FirstReader(modulus)) && !FirstReader(modulus).failed
    ensures PollsToDownload(files)
            == |Flatten(Contents(SourcesOf(files)))| + Owed(FirstReader(modulus), SourcesOf(files))
    ensures Starts(FirstReader(modulus))
  {
    var sources := SourcesOf(files);
    assert sources[..0] == [] && sources[0..] == sources;
    InitInv<seq<byte>>(0, PIPELINE_FRAMES, modulus, WINDOW);
    forall k | 0 <= k < |sources|
      ensures 0 < |sources[k].content| <= FRAMES_PER_FILE
    {
      CutCount(files[k].data);
    }
  }
}
