/** An upload: socket fragments go through the write scheduler into numbered segments. Awaiting is
    modelled as polling at most `polls` times in all; the result holds for every such number. */
module Uploads {
  import opened Segmentation
  import opened WriteSlots
  import opened Writers
  import opened WriteEnds
  import opened FrameBudgets
  import opened WriteSchedulers
  import opened ByteFrames
  import opened SegmentFiles
  import opened SegmentNames
  import opened Catalogs
  import opened StoredWrites
  import opened UploadSteps

  datatype UploadResult = UploadAwaits | UploadFailed | Uploaded(files: Files, total: nat)

  datatype Outcome = OutOfPolls | Broke | Wrote(written: Files, next: nat, left: nat)

  /** Replace completed heads by new destinations, unless segment numbers run out. */
  method SwapCompleted(writer: WriteScheduler<seq<byte>>, completed: nat, start: nat, soFar: Files,
      ghost bytes: seq<byte>, ghost rest: nat)
    returns (ok: bool, next: nat, written: Files)
    requires writer.Valid() && Pumping(writer.View(), bytes, start, soFar)
    requires completed <= HeadsDone(writer.View().files)
    modifies writer, writer.files
    ensures writer.Valid() && Pumping(writer.View(), bytes, next, written)
    ensures old(writer.history) <= writer.history && NoPolls(writer.history, |old(writer.history)|)
    ensures Fuel(writer.View(), |bytes|, rest) + (if ok then completed else 0)
            <= Fuel(old(writer.View()), |bytes|, rest)
    ensures if ok then next == start + completed && |written| == |soFar| + completed else NextSegment(next).None?
    ensures forall k :: 0 <= k < |writer.files| ==> writer.files[k] in old(writer.files)
  {
    hide WriteScheduler.Valid, WriteScheduler.View, Uploading, Writers.TakeHead, Admit, FrameBudget.Cells, Fuel,
        HeadsDone, Enabled;
    next, written := start, soFar;
    var i := 0;
    while i < completed
      invariant i <= completed && completed - i <= HeadsDone(writer.View().files)
      invariant next == start + i && |written| == |soFar| + i
      invariant writer.Valid() && Pumping(writer.View(), bytes, next, written)
      invariant old(writer.history) <= writer.history && NoPolls(writer.history, |old(writer.history)|)
      invariant Fuel(writer.View(), |bytes|, rest) + i <= Fuel(old(writer.View()), |bytes|, rest)
      invariant forall k :: 0 <= k < |writer.files| ==> writer.files[k] in old(writer.files)
    {
      var file := NextSegment(next);
      if file.None? {
        return false, next, written;
      }
      ghost var w := writer.View();
      SwapIsEnabled(w, bytes, next, written);
      HeadCounted(w);
      var r := writer.PopSwap(file.value);
      SwapKeepsUploading(w, bytes, next, written, r.file, r.output);
      SwapBurns(w, next, |bytes|, rest);
      written := written + [Entry(FileName(r.file.name), Flatten(r.output))];
      next := next + 1;
      i := i + 1;
    }
    return true, next, written;
  }

  /** Feed all of `bytes`, however many polls that takes and however little each consumes. It stops
      early only when polls or segment numbers run out, or a backend reports an error. */
  method WriteBytes(writer: WriteScheduler<seq<byte>>, bytes: seq<byte>, start: nat, soFar: Files, polls: nat,
      ghost before: seq<byte>)
    returns (r: Outcome)
    requires writer.Valid() && Pumping(writer.View(), before, start, soFar) && |writer.permit.budget.permits| == 1
    modifies writer, writer.files, writer.permit`capacity
    modifies writer.permit.budget`available, writer.permit.budget`waiters, writer.permit.budget.Cells()
    ensures old(writer.history) <= writer.history && (!r.Broke? ==> writer.Valid())
    ensures r.Wrote? ==> Pumping(writer.View(), before + bytes, r.next, r.written)
    ensures r.Wrote? && Succeeds(writer.history, |old(writer.history)|) ==>
              r.left + Fuel(old(writer.View()), |before|, |bytes|) >= polls + Fuel(writer.View(), |before + bytes|, 0)
    ensures r.OutOfPolls? && Succeeds(writer.history, |old(writer.history)|) ==>
              polls <= Fuel(old(writer.View()), |before|, |bytes|)
    ensures r.Broke? ==> Failure(writer.history, |old(writer.history)|) || Exhausts(|before + bytes|)
    ensures forall k :: 0 <= k < |writer.files| ==> writer.files[k] in old(writer.files)
  {
    hide *;
    var rest, left: nat, next, written := bytes, polls, start, soFar;
    ghost var done, h0, w0 := [], writer.history, writer.View();
    assert before + [] == before && [] + bytes == bytes;
    while rest != []
      invariant done + rest == bytes && h0 <= writer.history
      invariant writer.Valid() && Pumping(writer.View(), before + done, next, written)
      invariant Succeeds(writer.history, |h0|) ==>
                  left + Fuel(w0, |before|, |bytes|) >= polls + Fuel(writer.View(), |before + done|, |rest|)
      invariant forall k :: 0 <= k < |writer.files| ==> writer.files[k] in old(writer.files)
      decreases left
    {
      if left == 0 {
        writer.Reachable();
        PumpingSeen(writer.View(), before + done, next, written);
        FuelIsLeft(writer.View(), before + done, next, written, |rest|);
        return OutOfPolls;
      }
      left := left - 1;
      ghost var h := writer.history;
      var fed;
      fed, next, written := FeedOnce(writer, rest, next, written, before + done);
      SucceedsSince(h0, h, writer.history);
      if fed.None? {
        FailureStays(writer.history, |h|, writer.history, |h0|);
        assert |before + done| + |rest| == |before + bytes|;
        return Broke;
      }
      assert before + done + rest[..fed.value] == before + (done + rest[..fed.value]);
      done := done + rest[..fed.value];
      rest := rest[fed.value..];
    }
    assert done == bytes;
    return Outcome.Wrote(written, next, left);
  }

  /** One call of the writer and the swaps it makes possible; the number of bytes it took, unless it
      failed or segment numbers ran out. */
  method FeedOnce(writer: WriteScheduler<seq<byte>>, rest: seq<byte>, start: nat, soFar: Files, ghost bytes: seq<byte>)
    returns (fed: Option<nat>, next: nat, written: Files)
    requires writer.Valid() && Pumping(writer.View(), bytes, start, soFar) && rest != []
    requires |writer.permit.budget.permits| == 1
    modifies writer, writer.files, writer.permit`capacity
    modifies writer.permit.budget`available, writer.permit.budget`waiters, writer.permit.budget.Cells()
    ensures old(writer.history) <= writer.history && (fed.Some? ==> writer.Valid())
    ensures forall k :: 0 <= k < |writer.files| ==> writer.files[k] in old(writer.files)
    ensures fed.Some? ==> fed.value <= |rest| && Pumping(writer.View(), bytes + rest[..fed.value], next, written)
    ensures fed.Some? && Succeeds(writer.history, |old(writer.history)|) ==>
              Fuel(writer.View(), |bytes| + fed.value, |rest| - fed.value) < Fuel(old(writer.View()), |bytes|, |rest|)
    ensures fed.None? ==> Failure(writer.history, |old(writer.history)|) || Exhausts(|bytes| + |rest|)
  {
    hide *;
    next, written := start, soFar;
    ghost var h0 := writer.history;
    var status := PollOnce(writer, rest, next, written, bytes);
    if status.Waiting? {
      assert bytes + rest[..0] == bytes;
      return Some(0), next, written;
    }
    if status.Rejected? {
      return None, next, written;
    }
    var consumed := if status.status.output.Some? then status.status.output.value else 0;
    ghost var h, taken := writer.history, bytes + rest[..consumed];
    var ok;
    ok, next, written := SwapCompleted(writer, status.status.completed, next, written, taken, |rest| - consumed);
    SucceedsSince(h0, h, writer.history);
    if !ok {
      writer.Reachable();
      PumpingSeen(writer.View(), taken, next, written);
      ExhaustedByInput(writer.View(), taken, next, written);
      ExhaustsMore(|taken|, |bytes| + |rest|);
      return None, next, written;
    }
    return Some(consumed), next, written;
  }

  /** Poll the writer once with what is left of the input. */
  method PollOnce(writer: WriteScheduler<seq<byte>>, rest: seq<byte>, next: nat, written: Files, ghost bytes: seq<byte>)
    returns (r: WritePoll)
    requires writer.Valid() && Pumping(writer.View(), bytes, next, written) && rest != []
    requires |writer.permit.budget.permits| == 1
    modifies writer, writer.files, writer.permit`capacity
    modifies writer.permit.budget`available, writer.permit.budget`waiters, writer.permit.budget.Cells()
    ensures writer.Valid() && old(writer.history) <= writer.history
    ensures if r.Rejected? then Failure(writer.history, |old(writer.history)|) else writer.files == old(writer.files)
    ensures forall k :: 0 <= k < |writer.files| ==> writer.files[k] in old(writer.files)
    ensures r.Waiting? ==> Pumping(writer.View(), bytes, next, written)
    ensures r.Waiting? && Succeeds(writer.history, |old(writer.history)|) ==>
              Fuel(writer.View(), |bytes|, |rest|) < Fuel(old(writer.View()), |bytes|, |rest|)
    ensures r.Report? ==>
              var n := if r.status.output.Some? then r.status.output.value else 0;
              && n <= |rest| && Pumping(writer.View(), bytes + rest[..n], next, written)
              && r.status.completed == HeadsDone(writer.View().files) && n + r.status.completed > 0
              && (Succeeds(writer.history, |old(writer.history)|) ==>
                    Fuel(writer.View(), |bytes| + n, |rest| - n) + n <= Fuel(old(writer.View()), |bytes|, |rest|))
  {
    hide *;
    assert bytes + rest[..0] == bytes;
    var input := p => FillFrom(BLOCK, rest, p);
    ghost var w, h := writer.View(), writer.history;
    writer.Reachable();
    var selfWoke;
    r, selfWoke := writer.PollWrite(PartialOf([], BLOCK), input);
    writer.Reachable();
    writer.SoleNeverWaits();
    InputIsReady(rest, input);
    PumpingSeen(w, bytes, next, written);
    CallsCount();
    writer.LengthSeen();
    if !r.Rejected? {
      AbsorbKeepsUploading(w, bytes, next, written, rest, input, writer.View(), Answered(r));
      AnswerSeen(r);
      ghost var n := if r.Report? && r.status.output.Some? then r.status.output.value else 0;
      StillPumping(writer.View(), bytes + rest[..n], next, written);
      if Succeeds(writer.history, |h|) {
        CallBurns(writer.initial, h, w, writer.history, writer.View(), |bytes|, |rest|, n, r.Waiting?);
      }
    }
  }

  /** Fill the initial window with destinations. */
  method AdmitFirst(writer: WriteScheduler<seq<byte>>) returns (next: nat)
    requires writer.Valid() && Uploading(writer.View(), [], 0, []) && writer.files == []
    modifies writer
    ensures writer.Valid() && Pumping(writer.View(), [], next, [])
    ensures old(writer.history) <= writer.history && NoPolls(writer.history, |old(writer.history)|)
    ensures Effort(writer.View()) == PIPELINE_FILES * (FRAMES_PER_FILE + 3) && writer.View().popped == []
    ensures forall k :: 0 <= k < |writer.files| ==> writer.files[k] in old(writer.files) || fresh(writer.files[k])
  {
    hide WriteScheduler.Valid, WriteScheduler.View, Uploading, Admit, FrameBudget.Cells, Effort, Enabled;
    next := 0;
    writer.LengthSeen();
    NothingToDo(writer.View());
    while writer.AcceptFile()
      invariant writer.Valid() && Uploading(writer.View(), [], next, []) && next == |writer.View().files|
      invariant old(writer.history) <= writer.history && NoPolls(writer.history, |old(writer.history)|)
      invariant Effort(writer.View()) == next * (FRAMES_PER_FILE + 3) && writer.View().popped == []
      invariant forall k :: 0 <= k < |writer.files| ==> writer.files[k] in old(writer.files) || fresh(writer.files[k])
      decreases writer.maxActive - |writer.files|
    {
      ghost var w := writer.View();
      writer.LengthSeen();
      AdmitIsEnabled(w, next);
      var error := writer.PushFile(NextSegment(next).value);
      AdmitKeepsUploading(w, [], next, []);
      AdmitEffort(w, next);
      AdmittedOne(w, next);
      next := next + 1;
    }
    writer.LengthSeen();
    UploadingSeen(writer.View(), [], next, []);
    WindowIsFull(writer.View(), next);
  }

  /** Feed everything the socket delivers. */
  method WriteFragments(writer: WriteScheduler<seq<byte>>, fragments: seq<seq<byte>>, start: nat, polls: nat,
      ghost size: nat)
    returns (r: Outcome, total: nat)
    requires writer.Valid() && Pumping(writer.View(), [], start, []) && |writer.permit.budget.permits| == 1
    requires size == |Padded(Flatten(fragments))|
    modifies writer, writer.files, writer.permit`capacity
    modifies writer.permit.budget`available, writer.permit.budget`waiters, writer.permit.budget.Cells()
    ensures old(writer.history) <= writer.history && (!r.Broke? ==> writer.Valid())
    ensures r.Wrote? ==> total == |Flatten(fragments)| <= size
    ensures r.Wrote? ==> Pumping(writer.View(), Flatten(fragments), r.next, r.written)
    ensures r.Wrote? && Succeeds(writer.history, |old(writer.history)|) ==>
              r.left + Fuel(old(writer.View()), 0, size) >= polls + Fuel(writer.View(), total, size - total)
    ensures r.OutOfPolls? && Succeeds(writer.history, |old(writer.history)|) ==>
              polls <= Fuel(old(writer.View()), 0, size)
    ensures r.Broke? ==> Failure(writer.history, |old(writer.history)|) || Exhausts(size)
    ensures forall k :: 0 <= k < |writer.files| ==> writer.files[k] in old(writer.files)
  {
    hide *;
    r, total := Outcome.Wrote([], start, polls), 0;
    ghost var h0, w0 := writer.history, writer.View();
    var i := 0;
    NoBytes();
    assert fragments[..0] == [];
    while i < |fragments|
      invariant i <= |fragments| && r.Wrote? && total == |Flatten(fragments[..i])| <= size && h0 <= writer.history
      invariant writer.Valid() && Pumping(writer.View(), Flatten(fragments[..i]), r.next, r.written)
      invariant Succeeds(writer.history, |h0|) ==>
                  r.left + Fuel(w0, 0, size) >= polls + Fuel(writer.View(), total, size - total)
      invariant forall k :: 0 <= k < |writer.files| ==> writer.files[k] in old(writer.files)
    {
      Fragment(fragments, i);
      ghost var h, w, given := writer.history, writer.View(), r.left;
      r := WriteBytes(writer, fragments[i], r.next, r.written, r.left, Flatten(fragments[..i]));
      SucceedsSince(h0, h, writer.history);
      FailureStays(writer.history, |h|, writer.history, |h0|);
      FuelMoves(w, writer.View(), total, |fragments[i]|, size);
      ExhaustsMore(total + |fragments[i]|, size);
      total := total + |fragments[i]|;
      if !r.Wrote? {
        return;
      }
      i := i + 1;
    }
    assert fragments[..i] == fragments;
  }

  /** Feed everything the socket delivers, then the zeros that complete the last block. */
  method WriteAll(writer: WriteScheduler<seq<byte>>, fragments: seq<seq<byte>>, start: nat,
      polls: nat) returns (r: Outcome, total: nat)
    requires writer.Valid() && Pumping(writer.View(), [], start, []) && |writer.permit.budget.permits| == 1
    modifies writer, writer.files, writer.permit`capacity
    modifies writer.permit.budget`available, writer.permit.budget`waiters, writer.permit.budget.Cells()
    ensures old(writer.history) <= writer.history && (!r.Broke? ==> writer.Valid())
    ensures r.Wrote? ==> total == |Flatten(fragments)|
    ensures r.Wrote? ==> Pumping(writer.View(), Padded(Flatten(fragments)), r.next, r.written)
    ensures r.Wrote? && Succeeds(writer.history, |old(writer.history)|) ==>
              var size := |Padded(Flatten(fragments))|;
              r.left + Fuel(old(writer.View()), 0, size) >= polls + Fuel(writer.View(), size, 0)
    ensures r.OutOfPolls? && Succeeds(writer.history, |old(writer.history)|) ==>
              polls <= Fuel(old(writer.View()), 0, |Padded(Flatten(fragments))|)
    ensures r.Broke? ==>
              Failure(writer.history, |old(writer.history)|) || Exhausts(|Padded(Flatten(fragments))|)
    ensures forall k :: 0 <= k < |writer.files| ==> writer.files[k] in old(writer.files)
  {
    hide WriteScheduler.Valid, WriteScheduler.View, Uploading, Pumping, FrameBudget.Cells, Fuel, Succeeds, Failure,
        Exhausts, Padded, Flatten;
    ghost var h0, size := writer.history, |Padded(Flatten(fragments))|;
    r, total := WriteFragments(writer, fragments, start, polls, size);
    if !r.Wrote? {
      return;
    }
    var remainder := total % BLOCK;
    PaddedSize(Flatten(fragments));
    if remainder != 0 {
      ghost var h := writer.history;
      r := WriteBytes(writer, Zeros(BLOCK - remainder), r.next, r.written, r.left, Flatten(fragments));
      SucceedsSince(h0, h, writer.history);
      FailureStays(writer.history, |h|, writer.history, |h0|);
    }
  }

  /** Close the writer and collect the remaining results. When no backend fails or waits any more,
      a known number of calls is enough. */
  method CloseAll(writer: WriteScheduler<seq<byte>>, next: nat, soFar: Files, polls: nat,
      ghost bytes: seq<byte>) returns (r: Outcome)
    requires writer.Valid() && Uploading(writer.View(), bytes, next, soFar)
    modifies writer, writer.files, writer.permit`capacity
    modifies writer.permit.budget`available, writer.permit.budget`waiters, writer.permit.budget.Cells()
    ensures r.Wrote? ==> r.written == Numbered(Cut(bytes, FILE_SIZE)) && |r.written| <= NUMBERS
    ensures r.Wrote? ==> writer.Valid() && OnDisk(writer.View(), r.written) && [] !in writer.View().fed
    ensures Closes(writer.history, |old(writer.history)|, polls, old(writer.View())) ==> r.Wrote?
    ensures old(writer.history) <= writer.history
    ensures r.Broke? ==> Failure(writer.history, |old(writer.history)|)
  {
    hide WriteScheduler.Valid, WriteScheduler.View, Uploading, Ending, Writers.TakeHead, FrameBudget.Cells, Ended,
        Outputs, Left, Segments, Capacities, HeadsDone, CallsLeft, Nearer, Succeeds, Closes;
    var left: nat, written := polls, soFar;
    ghost var h0, w0 := writer.history, writer.View();
    FullCalls(h0, polls, w0);
    while true
      invariant writer.Valid() && h0 <= writer.history
      invariant Closes(writer.history, |h0|, polls, w0) ==> left > CallsLeft(writer.View())
      invariant Uploading(writer.View(), bytes, next, written) || Ending(writer.View(), bytes, next, written)
      invariant forall k :: 0 <= k < |writer.files| ==> writer.files[k] in old(writer.files)
      decreases left
    {
      if left == 0 {
        return OutOfPolls;
      }
      left := left - 1;
      ghost var w, h := writer.View(), writer.history;
      PhaseSeen(w, bytes, next, written);
      writer.PhaseSeen();
      var closed, selfWoke := writer.PollClose();
      ClosesSeen(h0, h, writer.history, polls, w0);
      CallMade(w, writer.View(), closed);
      if closed.CloseRejected? {
        return Broke;
      }
      EndedIsClosing(w, writer.View(), bytes, next, written);
      if closed == Completed(0) {
        writer.HistorySeen();
        ClosingSeen(writer.View(), bytes, next, written);
        EverythingIsOnDisk(writer.View(), bytes, next, written, writer.popped, writer.fed, writer.admitted);
        return Outcome.Wrote(written, next, left);
      }
      var i, count := 0, if closed.Completed? then closed.files else 0;
      while i < count
        invariant writer.Valid() && Ending(writer.View(), bytes, next, written) && h0 <= writer.history
        invariant i <= count && count - i <= HeadsDone(writer.View().files)
        invariant Closes(writer.history, |h0|, polls, w0) ==>
                    left + (if i == 0 < count then 1 else 0) > CallsLeft(writer.View())
        invariant forall k :: 0 <= k < |writer.files| ==> writer.files[k] in old(writer.files)
      {
        ghost var v, g := writer.View(), writer.history;
        HeadTaken(v, bytes, next, written);
        var popped := writer.PopFile();
        if !popped.Gone? {
          return Broke;
        }
        ClosesSeen(h0, g, writer.history, polls, w0);
        PopKeepsClosing(v, bytes, next, written, popped.file, popped.output);
        written := written + [Entry(FileName(popped.file.name), Flatten(popped.output))];
        i := i + 1;
      }
    }
  }

  /** Everything from admitting the first destinations to the last close result. */
  method UploadThrough(writer: WriteScheduler<seq<byte>>, fragments: seq<seq<byte>>, polls: nat)
    returns (r: UploadResult)
    requires writer.Valid() && Uploading(writer.View(), [], 0, []) && writer.files == []
    requires |writer.permit.budget.permits| == 1
    modifies writer, writer.files, writer.permit`capacity
    modifies writer.permit.budget`available, writer.permit.budget`waiters, writer.permit.budget.Cells()
    ensures old(writer.history) <= writer.history
    ensures r.Uploaded? ==>
              && r.total == |Flatten(fragments)| && r.files == Stored(Flatten(fragments)) && |r.files| <= NUMBERS
    ensures r.Uploaded? ==> writer.Valid() && OnDisk(writer.View(), r.files) && [] !in writer.View().fed
    ensures r.UploadFailed? ==>
              Failure(writer.history, |old(writer.history)|) || Exhausts(|Padded(Flatten(fragments))|)
    ensures r.UploadAwaits? && Succeeds(writer.history, |old(writer.history)|) ==>
              polls <= PollsToUpload(|Padded(Flatten(fragments))|)
  {
    hide *;
    ghost var h0 := writer.history;
    var next := AdmitFirst(writer);
    ghost var h1, w1, size := writer.history, writer.View(), |Padded(Flatten(fragments))|;
    FirstFuel(w1, size);
    var written, total := WriteAll(writer, fragments, next, polls);
    SucceedsSince(h0, h1, writer.history);
    FailureStays(writer.history, |h1|, writer.history, |h0|);
    if !written.Wrote? {
      return if written.OutOfPolls? then UploadAwaits else UploadFailed;
    }
    ghost var h2, w2 := writer.history, writer.View();
    PumpingSeen(w2, Padded(Flatten(fragments)), written.next, written.written);
    writer.Reachable();
    FuelCloses(w2, Padded(Flatten(fragments)), written.next, written.written);
    var closed := CloseAll(writer, written.next, written.written, written.left, Padded(Flatten(fragments)));
    SucceedsSince(h1, h2, writer.history);
    SucceedsSince(h0, h1, writer.history);
    FailureStays(writer.history, |h2|, writer.history, |h0|);
    ClosesNow(writer.history, |h2|, written.left, w2);
    if !closed.Wrote? {
      return if closed.OutOfPolls? then UploadAwaits else UploadFailed;
    }
    StoredSeen(Flatten(fragments));
    return Uploaded(closed.written, total);
  }

  method NewWriter() returns (writer: WriteScheduler<seq<byte>>)
    ensures writer.Valid() && Uploading(writer.View(), [], 0, []) && writer.files == [] && writer.history == []
    ensures writer.initial == FIRST_WRITER && |writer.permit.budget.permits| == 1
    ensures fresh(writer) && fresh(writer.permit) && fresh(writer.permit.budget) && fresh(writer.permit.budget.Cells())
  {
    hide WriteScheduler.Valid, WriteScheduler.View, Uploading, FrameBudget.Valid;
    var budget := NewBudget(PIPELINE_FRAMES);
    var created := WriteScheduler.New(budget, 0, PIPELINE_FRAMES, PIPELINE_FILES);
    writer := created.value;
    InitUploading();
  }

  method NewBudget(total: nat) returns (budget: FrameBudget)
    ensures fresh(budget) && budget.Valid() && budget.total == total && budget.permits == []
  {
    budget := new FrameBudget(total);
    assert |budget.View().permits| == 0;
  }

  /** Upload what a socket delivers in `fragments`. A completed upload has left exactly the files
      and the byte count that stand for that input, however it was fragmented. The files are those
      that the segments behind the destinations hold, whatever each of their polls did. An upload
      fails only if a backend reported an error or segment numbers run out, and if all polls
      succeed it completes within a known number of calls. */
  method Upload(fragments: seq<seq<byte>>, polls: nat)
    returns (r: UploadResult, ghost run: seq<StoredWrites.ByteEvent>)
    ensures r.Uploaded? ==>
              && r.total == |Flatten(fragments)| && r.files == Stored(Flatten(fragments)) && |r.files| <= NUMBERS
    ensures r.Uploaded? ==> Leaves(FIRST_WRITER, run, r.files)
    ensures r.UploadFailed? ==> Failure(run, 0) || Exhausts(|Padded(Flatten(fragments))|)
    ensures r.UploadAwaits? && Succeeds(run, 0) ==> polls <= PollsToUpload(|Padded(Flatten(fragments))|)
  {
    hide WriteScheduler.Valid, WriteScheduler.View, Uploading, OnDisk, Leaves, FrameBudget.Cells, Init, Run, Inv,
        DiskRun, Succeeds, Failure, Exhausts, PollsToUpload;
    var writer := NewWriter();
    r := UploadThrough(writer, fragments, polls);
    run := writer.history;
    if r.Uploaded? {
      writer.Reachable();
      FirstIsEmpty();
      ResultsAreLeft(FIRST_WRITER, run, r.files);
    }
  }

  lemma FirstIsEmpty()
    ensures FIRST_WRITER.files == [] && FIRST_WRITER.popped == []
  {
  }
}
