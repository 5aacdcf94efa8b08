/** A download: stored segments go through the read scheduler to the socket. Awaiting is modelled
    as polling at most `polls` times in all; the result holds for every such number. */
module Downloads {
  import opened Segmentation
  import opened Readers
  import opened ReadEnds
  import opened ReadPasses
  import opened FrameBudgets
  import opened ReadSchedulers
  import opened Wrapping
  import opened ByteFrames
  import opened SegmentFiles
  import opened SegmentNames
  import opened Catalogs
  import opened StoredReads
  import opened UploadSteps
  import opened DownloadSteps
  import Uploads

  datatype DownloadResult = DownloadAwaits | InvalidData | DownloadFailed | Downloaded(bytes: seq<byte>)

  /** Collect the segments of a listing, unless one has a size no upload produces. */
  method Scan(listing: Files) returns (files: Files, stored: nat, good: bool)
    ensures good <==> forall k :: 0 <= k < |Picked(listing)| ==> GoodSize(|Picked(listing)[k].data|)
    ensures good ==> files == Picked(listing) && stored == TotalSize(files)
  {
    hide Picked, IsSegment, GoodSize, TotalSize;
    files, stored := [], 0;
    var i := 0;
    NothingPicked();
    assert listing[0..] == listing && [] + Picked(listing) == Picked(listing);
    while i < |listing|
      invariant i <= |listing| && Picked([]) == []
      invariant files + Picked(listing[i..]) == Picked(listing)
      invariant stored == TotalSize(files)
      invariant forall k :: 0 <= k < |files| ==> GoodSize(|files[k].data|)
    {
      var entry := listing[i];
      PickedNext(listing, i);
      if IsSegment(entry.name) {
        var size := |entry.data|;
        if !GoodSize(size) {
          assert Picked(listing)[|files|] == entry;
          return files, stored, false;
        }
        SizeAppend(files, entry);
        stored := stored + size;
        files := files + [entry];
      }
      i := i + 1;
    }
    assert listing[i..] == [] && files + [] == files;
    return files, stored, true;
  }

  /** Offer sources until the reader is full or none is left; then close its input. It fails only if
      the reader has failed, or cannot tell its positions apart. */
  method Feed(reader: ReadScheduler<seq<byte>>, sources: seq<ByteSource>, start: nat, refused: Option<ByteSource>)
    returns (ok: bool, next: nat, waiting: Option<ByteSource>)
    requires reader.Valid() && Pulling(reader.View(), sources, start, refused) && Segmented(sources)
    modifies reader
    ensures reader.Valid() && old(reader.history) <= reader.history && Quiet(reader.history, |old(reader.history)|)
    ensures reader.View().emitted == old(reader.View()).emitted
    ensures Owed(reader.View(), sources) == Owed(old(reader.View()), sources)
    ensures if ok then Pulling(reader.View(), sources, next, waiting)
                       && (reader.View().closed || reader.View().files != [])
            else reader.View().failed || reader.modulus < MIN_MODULUS
    ensures ok ==> reader.View().closed || (waiting.Some? && IsFull(reader.View()))
  {
    hide *;
    next, waiting := start, refused;
    PullingSeen(reader.View(), sources, next, waiting);
    QuietYet(reader.history);
    reader.ViewSeen();
    while !reader.closed
      invariant reader.Valid() && Pulling(reader.View(), sources, next, waiting)
      invariant old(reader.history) <= reader.history && Quiet(reader.history, |old(reader.history)|)
      invariant reader.View().emitted == old(reader.View()).emitted && reader.View().closed == reader.closed
      invariant Owed(reader.View(), sources) == Owed(old(reader.View()), sources)
      invariant reader.View().admitted == reader.admitted && |reader.admitted| <= |sources|
      invariant next == |reader.admitted| + (if waiting.Some? then 1 else 0) && next <= |sources|
      decreases |sources| - |reader.admitted|, !reader.closed
    {
      ghost var r, h := reader.View(), reader.history;
      PullingSeen(r, sources, next, waiting);
      if waiting.None? && next == |sources| {
        reader.CloseFiles();
        CloseOwes(r, sources);
        ClosedPulls(r, sources, next);
        QuietOn(old(reader.history), h, reader.history);
        PullingSeen(reader.View(), sources, next, waiting);
        reader.ViewSeen();
      } else {
        var file := if waiting.Some? then waiting.value else sources[next];
        next := if waiting.Some? then next else next + 1;
        waiting := None;
        var error := Offer(reader, sources, file);
        QuietOn(old(reader.history), h, reader.history);
        if error == Some(Full) {
          waiting := Some(file);
          PullsAgain(r, sources, next, file);
          reader.Reachable();
          FullHasFiles(reader.View());
          break;
        }
        if error.Some? {
          return false, next, waiting;
        }
        PullsNext(r, sources, next, file);
        PullingSeen(reader.View(), sources, next, waiting);
        reader.ViewSeen();
      }
    }
    return true, next, waiting;
  }

  /** Offer one source. */
  method Offer(reader: ReadScheduler<seq<byte>>, sources: seq<ByteSource>, file: ByteSource)
    returns (refused: Option<PushError>)
    requires reader.Valid() && !reader.View().closed && Segmented(sources) && |reader.View().admitted| < |sources|
    requires reader.View().window == WINDOW && reader.View().maxRetries == 0
    requires file == sources[|reader.View().admitted|]
    modifies reader
    ensures reader.Valid() && old(reader.history) <= reader.history && Quiet(reader.history, |old(reader.history)|)
    ensures reader.View() == if refused.None? then PushStep(old(reader.View()), file) else old(reader.View())
    ensures reader.View().emitted == old(reader.View()).emitted && reader.View().closed == old(reader.View()).closed
    ensures Owed(reader.View(), sources) == Owed(old(reader.View()), sources)
    ensures refused == Some(Full) ==> !reader.View().terminated && IsFull(reader.View())
    ensures refused.Some? && refused != Some(Full) ==> reader.View().failed || reader.modulus < MIN_MODULUS
  {
    hide ReadScheduler.Valid, ReadScheduler.View, Accepts, IsFull, Inv, Owed, Run;
    reader.Reachable();
    reader.ViewSeen();
    reader.ConfigSeen();
    PushOwes(reader.View(), sources, file);
    ghost var r := reader.View();
    refused := reader.PushFile(file);
    if refused.Some? && refused != Some(Full) {
      RefusedCause(r, file);
    }
  }

  /** While a frame is on its way to the socket, the reader makes progress some number of times. */
  method Progress(reader: ReadScheduler<seq<byte>>, ghost sources: seq<ByteSource>)
    requires reader.Valid()
    modifies reader, reader.permit`capacity
    modifies reader.permit.budget`available, reader.permit.budget`waiters, reader.permit.budget.Cells()
    ensures reader.Valid() && old(reader.history) <= reader.history && Carried(old(reader.View()), reader.View())
    ensures Smooth(reader.history, |old(reader.history)|) ==>
              Owed(reader.View(), sources) <= Owed(old(reader.View()), sources)
  {
    hide *;
    var times: nat := *;
    ghost var h0, r0 := reader.history, reader.View();
    CarriedSelf(r0);
    while times > 0
      invariant reader.Valid() && h0 <= reader.history && Carried(r0, reader.View())
      invariant Smooth(reader.history, |h0|) ==> Owed(reader.View(), sources) <= Owed(r0, sources)
    {
      ghost var r, h := reader.View(), reader.history;
      reader.Reachable();
      var selfWoke := reader.PollProgress();
      reader.Reachable();
      CarriedTrans(r0, r, reader.View());
      CarriedSeen(r, reader.View());
      SmoothSince(h0, h, reader.history);
      if Smooth(reader.history, |h|) {
        ReadSpends(reader.initial, h, r, reader.history, reader.View(), sources);
      }
      times := times - 1;
    }
  }

  /** Read the next frame, if it is there; a call that tells to wait has left less to do. */
  method ReadOnce(reader: ReadScheduler<seq<byte>>, sources: seq<ByteSource>, given: seq<byte>, ghost next: nat,
      ghost waiting: Option<ByteSource>)
    returns (r: ReadSchedulers.ReadPoll<seq<byte>>)
    requires reader.Valid() && Pulling(reader.View(), sources, next, waiting)
    requires reader.View().closed || reader.View().files != []
    requires |reader.permit.budget.permits| == 1
    modifies reader, reader.permit`capacity
    modifies reader.permit.budget`available, reader.permit.budget`waiters, reader.permit.budget.Cells()
    ensures reader.Valid() && old(reader.history) <= reader.history
    ensures r.Error? ==> reader.View().delivered > 0
    ensures !r.Error? ==> Pulling(reader.View(), sources, next, waiting)
    ensures reader.View().emitted == old(reader.View()).emitted + (if r.Frame? then 1 else 0)
    ensures r.Frame? ==>
              var frames := Flatten(Contents(sources));
              old(reader.View()).emitted < |frames| && r.frame == frames[old(reader.View()).emitted]
    ensures r.End? ==>
              && reader.View().admitted == sources && reader.View().terminated && reader.View().error.None?
              && reader.View().emitted == |Flatten(Contents(sources))|
    ensures Smooth(reader.history, |old(reader.history)|) ==>
              Owed(reader.View(), sources) + (if r.Waiting? then 1 else 0) <= Owed(old(reader.View()), sources)
  {
    hide *;
    ghost var u, h := reader.View(), reader.history;
    reader.Reachable();
    reader.ViewSeen();
    reader.ConfigSeen();
    PullingSeen(u, sources, next, waiting);
    var selfWoke;
    r, selfWoke := reader.PollRead(given);
    reader.Reachable();
    reader.ViewSeen();
    reader.ConfigSeen();
    reader.SoleNeverWaits();
    CallsCount();
    PullsOn(u, reader.View(), sources, next, waiting);
    if r.Frame? {
      AdmittedFrame(reader.admitted, sources, u.emitted);
    }
    if Smooth(reader.history, |h|) {
      ReadSpends(reader.initial, h, u, reader.history, reader.View(), sources);
      if r.Waiting? && !selfWoke {
        WaitNeedsPending(reader.initial, reader.View(), reader.permit.View(), reader.history, |h|);
      }
    }
  }

  /** Read and send everything. */
  method ReadAll(reader: ReadScheduler<seq<byte>>, sources: seq<ByteSource>, total: nat,
      polls: nat) returns (r: DownloadResult)
    requires reader.Valid() && Pulling(reader.View(), sources, 0, None) && reader.View().emitted == 0
    requires Segmented(sources) && |reader.permit.budget.permits| == 1
    requires forall k :: 0 <= k < |Flatten(Contents(sources))| ==> |Flatten(Contents(sources))[k]| == BLOCK
    modifies reader, reader.permit`capacity
    modifies reader.permit.budget`available, reader.permit.budget`waiters, reader.permit.budget.Cells()
    ensures reader.Valid() && old(reader.history) <= reader.history && !r.InvalidData?
    ensures r.Downloaded? ==>
              var frames := Flatten(Contents(sources));
              r.bytes == Sent(frames, |frames|, total)
    ensures r.Downloaded? ==>
              && reader.View().admitted == sources && reader.View().delivered == 0
              && reader.View().terminated && reader.View().error.None?
    ensures r.DownloadFailed? ==>
              reader.View().failed || reader.View().delivered > 0 || reader.modulus < MIN_MODULUS
    ensures r.DownloadAwaits? && Smooth(reader.history, |old(reader.history)|) ==>
              polls <= |Flatten(Contents(sources))| + Owed(old(reader.View()), sources)
  {
    hide *;
    var next, waiting, out, remaining := 0, None, [], total;
    var frame: seq<byte> := [];
    ghost var frames, k, h0, owed := Flatten(Contents(sources)), 0, reader.history, Owed(reader.View(), sources);
    NothingSent(frames, total);
    var left := polls;
    while left > 0
      invariant reader.Valid() && Pulling(reader.View(), sources, next, waiting) && h0 <= reader.history
      invariant k == reader.View().emitted <= |frames| && out == Sent(frames, k, total) && remaining == total - |out|
      invariant Smooth(reader.history, |h0|) ==>
                left + |frames| + owed >= polls + |frames| - k + Owed(reader.View(), sources)
      decreases left
    {
      left := left - 1;
      ghost var h1 := reader.history;
      var ok;
      ok, next, waiting := Feed(reader, sources, next, waiting);
      if !ok {
        return DownloadFailed;
      }
      ghost var h2 := reader.history;
      var answer := ReadOnce(reader, sources, frame, next, waiting);
      SmoothSince(h0, h1, reader.history);
      SmoothSince(h1, h2, reader.history);
      match answer {
        case Error(_) =>
          return DownloadFailed;
        case End =>
          PullingSeen(reader.View(), sources, next, waiting);
          return Downloaded(out);
        case Waiting =>
          if waiting.Some? {
            ghost var v, h := reader.View(), reader.history;
            PullingSeen(v, sources, next, waiting);
            var error := Offer(reader, sources, waiting.value);
            SmoothSince(h0, h, reader.history);
            if error.None? {
              PullsNext(v, sources, next, waiting.value);
              waiting := None;
            } else if error != Some(Full) {
              return DownloadFailed;
            }
          }
        case Frame(f) =>
          SendStep(frames, k, total);
          var length := if remaining <= BLOCK then remaining else BLOCK;
          out := out + f[..length];
          remaining := remaining - length;
          k := k + 1;
          frame := f;
          ghost var v, h := reader.View(), reader.history;
          reader.ConfigSeen();
          Progress(reader, sources);
          reader.ConfigSeen();
          SmoothSince(h0, h, reader.history);
          CarriedPulls(v, reader.View(), sources, next, waiting);
      }
    }
    return DownloadAwaits;
  }

  // --- the whole download ---------------------------------------------------------------------------

  method NewReader(modulus: Modulus) returns (reader: ReadScheduler<seq<byte>>)
    ensures reader.Valid() && reader.View() == FirstReader(modulus) == reader.initial && reader.history == []
    ensures |reader.permit.budget.permits| == 1 && reader.modulus == modulus
    ensures fresh(reader) && fresh(reader.permit) && fresh(reader.permit.budget) && fresh(reader.permit.budget.Cells())
  {
    hide ReadScheduler.Valid, FrameBudget.Valid, ReadScheduler.View;
    var budget := Uploads.NewBudget(PIPELINE_FRAMES);
    var created := ReadScheduler.New(budget, 0, modulus, WINDOW);
    reader := created.value;
    reader.ConfigSeen();
  }

  /** Download what a directory listing holds, of which `total` bytes were uploaded. Listings that
      cannot stem from an upload of that many bytes are refused; otherwise a completed download
      has sent the joined segments in the order of their names, cut off after `total` bytes. What
      it sent is what the segments read into its buffers, whatever each of their polls did. A
      download fails only if a backend reported an error or an early end, or positions are too
      small, and if all polls succeed it completes within a known number of calls. */
  method Download(total: nat, listing: Files, modulus: Modulus, polls: nat)
    returns (r: DownloadResult, ghost run: seq<StoredReads.ByteEvent>)
    ensures r.InvalidData? <==> !Matches(total, listing)
    ensures r.Downloaded? ==> r.bytes == Restored(total, listing)
    ensures r.Downloaded? ==> |r.bytes| == total && r.bytes <= Joined(Sort(Picked(listing)))
    ensures r.Downloaded? ==> Reads(FirstReader(modulus), run, DataOf(Sort(Picked(listing))), total, r.bytes)
    ensures r.DownloadFailed? ==> Fault(run, 0) || modulus < MIN_MODULUS
    ensures r.DownloadAwaits? && Smooth(run, 0) ==> polls <= PollsToDownload(Sort(Picked(listing)))
  {
    hide ReadScheduler.Valid, ReadScheduler.View, FrameBudget.Cells, Restored, Sent, Contents, Reads, Run, AllStand,
        Inv, Owed, Smooth, Fault, PollsToDownload, Pulling, Segmented;
    var files, stored, good := Scan(listing);
    if !good || stored / BLOCK != (total + BLOCK - 1) / BLOCK {
      return InvalidData, [];
    }
    var sorted := Sort(files);
    SortedSources(total, listing);
    var reader := NewReader(modulus);
    FirstPulls(modulus, sorted);
    r := ReadAll(reader, SourcesOf(sorted), total, polls);
    run := reader.history;
    reader.Reachable();
    FailedBy(FirstReader(modulus), run, reader.View());
    if r.Downloaded? {
      RestoredSize(total, listing);
      RunIsReal(FirstReader(modulus), run, reader.View(), DataOf(sorted), SourcesOf(sorted), total);
    }
  }
}
