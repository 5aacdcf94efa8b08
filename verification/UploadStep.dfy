/** The steps of an upload on values: what the writer has taken and left so far, and how many calls it
    can still need. */
module UploadSteps {
  import opened Naturals
  import opened Segmentation
  import opened WriteSlots
  import opened Writers
  import opened WriteEnds
  import opened Rings
  import opened WriteSchedulers
  import opened ByteFrames
  import opened SegmentFiles
  import opened SegmentNames
  import opened Catalogs
  import opened StoredWrites

  const PIPELINE_FILES: nat := 40

  const PIPELINE_FRAMES: nat := 400

  /** The writer of an upload, before anything is admitted; nothing is retried. */
  const FIRST_WRITER: ByteWriter := Init(0, PIPELINE_FRAMES, PIPELINE_FRAMES, PIPELINE_FILES)

  /** Destinations are admitted in the order of their numbers. */
  ghost predicate InSequence(w: ByteWriter, next: nat) {
    && |w.admitted| == next <= NUMBERS
    && forall k :: 0 <= k < next ==> w.admitted[k] == Descriptor(k, FRAMES_PER_FILE)
  }

  /** Nothing is retried, and the window is that of the program. */
  predicate Piped(w: ByteWriter) {
    w.maxRetries == 0 && w.maxActive == PIPELINE_FILES && |w.files| <= PIPELINE_FILES
  }

  ghost predicate Uploading(w: ByteWriter, bytes: seq<byte>, next: nat, written: Files) {
    Piped(w) && w.phase.Accepting? && Took(w, BLOCK, bytes) && InSequence(w, next) && OnDisk(w, written)
  }

  /** The same with the window full of destinations. */
  ghost predicate Pumping(w: ByteWriter, bytes: seq<byte>, next: nat, written: Files) {
    Uploading(w, bytes, next, written) && |w.files| == PIPELINE_FILES
  }

  ghost predicate Ending(w: ByteWriter, bytes: seq<byte>, next: nat, written: Files) {
    w.phase.Draining? && Took(w, BLOCK, bytes) && InSequence(w, next) && OnDisk(w, written)
  }

  /** The next destination, unless segment numbers run out. */
  function NextSegment(next: nat): Option<Descriptor> {
    if next + 1 < NUMBERS then Some(Descriptor(next, FRAMES_PER_FILE)) else None
  }

  /** All polls since event `from` succeeded, and more calls are allowed than a writer that was in
      state `w` then can need. */
  ghost predicate Closes(events: seq<ByteEvent>, from: nat, polls: nat, w: ByteWriter) {
    Succeeds(events, from) && polls > CallsLeft(w)
  }

  lemma SwapKeepsUploading(w: ByteWriter, bytes: seq<byte>, next: nat, written: Files, file: File<seq<byte>>,
      output: seq<seq<byte>>)
    requires Uploading(w, bytes, next, written) && next + 1 < NUMBERS
    requires Enabled(w, Event.PopSwap(Descriptor(next, FRAMES_PER_FILE)))
    requires file == w.files[0].file && FileState.Closed(output) == w.files[0].state
    ensures Uploading(Admit(TakeHead(w), Descriptor(next, FRAMES_PER_FILE)), bytes, next + 1,
                      written + [Entry(FileName(file.name), Flatten(output))])
  {
  }

  /** A result that was counted can be swapped. */
  lemma SwapIsEnabled(w: ByteWriter, bytes: seq<byte>, next: nat, written: Files)
    requires Uploading(w, bytes, next, written) && HeadsDone(w.files) > 0
    ensures Enabled(w, Event.PopSwap(Descriptor(next, FRAMES_PER_FILE)))
  {
  }

  lemma AbsorbKeepsUploading(w: ByteWriter, bytes: seq<byte>, next: nat, written: Files, rest: seq<byte>,
                             input: Partial<seq<byte>> -> FillResult<seq<byte>>, v: ByteWriter, output: Option<nat>)
    requires Uploading(w, bytes, next, written) && Absorbed(w, PartialOf([], BLOCK), input, v, output)
    requires forall p :: input(p) == FillFrom(BLOCK, rest, p)
    ensures var n := if output.Some? then output.value else 0;
            && n <= |rest| && Uploading(v, bytes + rest[..n], next, written) && |v.files| == |w.files|
            && v.popped == w.popped && v.admitted == w.admitted && (rest != [] && output.Some? ==> n > 0)
  {
    assert bytes + [] == bytes;
    if output.Some? {
      var after := input(if w.partial.Some? then w.partial.value else PartialOf([], BLOCK)).after;
      FlattenSnoc(w.fed, after.value);
      assert Flatten(w.fed) + after.value == bytes + rest[..output.value];
    }
  }

  lemma InitUploading()
    ensures Uploading(FIRST_WRITER, [], 0, [])
  {
  }

  lemma AdmitKeepsUploading(w: ByteWriter, bytes: seq<byte>, next: nat, written: Files)
    requires Uploading(w, bytes, next, written) && next + 1 < NUMBERS && |w.files| < PIPELINE_FILES
    ensures Uploading(Admit(w, Descriptor(next, FRAMES_PER_FILE)), bytes, next + 1, written)
  {
  }

  lemma FullCalls(h: seq<ByteEvent>, polls: nat, w: ByteWriter)
    ensures Closes(h, |h|, polls, w) ==> polls > CallsLeft(w)
  {
  }

  lemma ClosesSeen(h0: seq<ByteEvent>, h: seq<ByteEvent>, after: seq<ByteEvent>, polls: nat, w: ByteWriter)
    requires h0 <= h <= after
    ensures Closes(after, |h0|, polls, w) ==> Closes(h, |h0|, polls, w) && Succeeds(after, |h|)
  {
    forall k | |h0| <= k < |h|
      ensures h[k] == after[k]
    {
    }
  }

  lemma CallMade(w: ByteWriter, v: ByteWriter, closed: ClosePoll)
    ensures Nearer(w, v, if closed.Undone? then MAX_POLL_OPS else 0) ==>
              CallsLeft(v) + (if closed.Undone? then 1 else 0) <= CallsLeft(w)
  {
    hide CallsLeft, Nearer;
    if Nearer(w, v, if closed.Undone? then MAX_POLL_OPS else 0) {
      NearerCalls(w, v, if closed.Undone? then MAX_POLL_OPS else 0);
    }
  }

  lemma PhaseSeen(w: ByteWriter, bytes: seq<byte>, next: nat, written: Files)
    requires Uploading(w, bytes, next, written) || Ending(w, bytes, next, written)
    ensures !w.phase.Broken?
  {
  }

  /** As long as results are counted there is a head to take. */
  lemma HeadTaken(w: ByteWriter, bytes: seq<byte>, next: nat, written: Files)
    requires Ending(w, bytes, next, written) && HeadsDone(w.files) > 0
    ensures Enabled(w, Event.PopFile) && CallsLeft(TakeHead(w)) < CallsLeft(w)
    ensures HeadsDone(TakeHead(w).files) + 1 == HeadsDone(w.files)
  {
    TakenCalls(w);
  }

  lemma ClosingSeen(w: ByteWriter, bytes: seq<byte>, next: nat, written: Files)
    requires Ending(w, bytes, next, written)
    ensures OnDisk(w, written) && [] !in w.fed
  {
    CutIsWhole(bytes, BLOCK);
  }

  /** Closing adds what the partial frame holds as the last frame. */
  lemma EndedIsClosing(w: ByteWriter, v: ByteWriter, bytes: seq<byte>, next: nat, written: Files)
    requires Uploading(w, bytes, next, written) || Ending(w, bytes, next, written)
    requires Ended(w, v)
    ensures Ending(v, bytes, next, written)
  {
    if w.phase.Accepting? {
      FullFramesAreCut(w.fed, Unfinished(w), BLOCK);
    }
  }

  lemma PopKeepsClosing(w: ByteWriter, bytes: seq<byte>, next: nat, written: Files, file: File<seq<byte>>,
      output: seq<seq<byte>>)
    requires Ending(w, bytes, next, written) && Enabled(w, Event.PopFile)
    requires file == w.files[0].file && FileState.Closed(output) == w.files[0].state
    ensures Ending(TakeHead(w), bytes, next, written + [Entry(FileName(file.name), Flatten(output))])
  {
  }

  /** Once everything is closed, the files are the numbered pieces of the bytes. */
  lemma EverythingIsOnDisk(w: ByteWriter, bytes: seq<byte>, next: nat, written: Files,
                           popped: seq<Popped<seq<byte>>>, fed: seq<seq<byte>>, admitted: seq<Descriptor>)
    requires Ending(w, bytes, next, written) && popped == w.popped && fed == w.fed && admitted == w.admitted
    requires Outputs(popped) == Segments(fed, Capacities(admitted)) && Left(popped) <= admitted
    ensures written == Numbered(Cut(bytes, FILE_SIZE)) && |written| <= NUMBERS
  {
    SegmentsArePieces(bytes, Capacities(admitted));
    var pieces := Cut(bytes, FILE_SIZE);
    forall k | 0 <= k < |written|
      ensures written[k] == Entry(FileName(k), pieces[k])
    {
      assert Left(popped)[k] == admitted[k] == Descriptor(k, FRAMES_PER_FILE);
      assert Outputs(popped)[k] == popped[k].output;
    }
  }

  // --- how many calls feeding takes ---------------------------------------------------------------

  /** Bounds the calls a writer can still need that has taken `taken` bytes and is to take `rest`
      more, if backends succeed: state changes, results to be swapped, and bytes. */
  function Fuel(w: ByteWriter, taken: nat, rest: nat): int {
    Effort(w) + 164 * (taken / FILE_SIZE - |w.popped|) + 165 * rest
  }

  /** Results are whole segments of what has been taken. */
  lemma PoppedBound(w: ByteWriter, bytes: seq<byte>, next: nat, written: Files)
    requires Inv(w) && Uploading(w, bytes, next, written)
    ensures |w.popped| * FILE_SIZE <= |bytes| && |w.popped| <= |bytes| / FILE_SIZE
    ensures next == |w.popped| + |w.files|
  {
    var outputs := Outputs(w.popped);
    forall k | 0 <= k < |outputs|
      ensures |outputs[k]| == FRAMES_PER_FILE
    {
      assert PoppedOk(w.popped[k], false);
      assert Descriptors(w)[k] == w.popped[k].descriptor == w.admitted[k];
    }
    FullParts(outputs, FRAMES_PER_FILE);
    FullParts(w.fed, BLOCK);
  }

  lemma {:induction false} FullParts<T>(parts: seq<seq<T>>, size: nat)
    requires forall k :: 0 <= k < |parts| ==> |parts[k]| == size
    ensures |Flatten(parts)| == |parts| * size
  {
    if parts != [] {
      FullParts(parts[1..], size);
      assert |parts| * size == size + |parts[1..]| * size;
    }
  }

  lemma FuelIsLeft(w: ByteWriter, bytes: seq<byte>, next: nat, written: Files, rest: nat)
    requires Inv(w) && Uploading(w, bytes, next, written)
    ensures Fuel(w, |bytes|, rest) >= Effort(w) >= 0
  {
    PoppedBound(w, bytes, next, written);
  }

  /** Numbers run out only after an input of that many segments. */
  predicate Exhausts(size: nat) {
    size / FILE_SIZE + PIPELINE_FILES + 1 >= NUMBERS
  }

  lemma ExhaustedByInput(w: ByteWriter, bytes: seq<byte>, next: nat, written: Files)
    requires Inv(w) && Uploading(w, bytes, next, written) && NextSegment(next).None?
    ensures Exhausts(|bytes|)
  {
    PoppedBound(w, bytes, next, written);
  }

  lemma ExhaustsMore(size: nat, more: nat)
    ensures size <= more && Exhausts(size) ==> Exhausts(more)
  {
  }

  /** Taking bytes pays for the results they make. */
  lemma TakingBurns(w: ByteWriter, v: ByteWriter, taken: nat, rest: nat, n: nat)
    requires n <= rest && v.popped == w.popped && Effort(v) <= Effort(w)
    ensures Fuel(v, taken + n, rest - n) + n <= Fuel(w, taken, rest)
  {
    assert (taken + n) / FILE_SIZE <= taken / FILE_SIZE + n;
  }

  lemma ChangingBurns(w: ByteWriter, v: ByteWriter, taken: nat, rest: nat)
    requires v.popped == w.popped && Effort(v) < Effort(w)
    ensures Fuel(v, taken, rest) < Fuel(w, taken, rest)
  {
  }

  lemma {:induction false} StagesAppend<T>(a: seq<Slot<T>>, b: seq<Slot<T>>)
    ensures StagesOf(a + b) == StagesOf(a) + StagesOf(b)
  {
    if a == [] {
      assert a + b == b;
    } else {
      assert (a + b)[1..] == a[1..] + b;
      StagesAppend(a[1..], b);
    }
  }

  lemma AdmitEffort(w: ByteWriter, next: nat)
    ensures Effort(Admit(w, Descriptor(next, FRAMES_PER_FILE))) == Effort(w) + FRAMES_PER_FILE + 3
  {
    var s := Opened(w, Descriptor(next, FRAMES_PER_FILE));
    StagesAppend(w.files, [s]);
    assert [s][1..] == [];
  }

  /** A swap uses up one call and leaves one result less to swap. */
  lemma SwapBurns(w: ByteWriter, next: nat, taken: nat, rest: nat)
    requires HeadDone(w)
    ensures var v := Admit(TakeHead(w), Descriptor(next, FRAMES_PER_FILE));
            && Fuel(v, taken, rest) < Fuel(w, taken, rest)
            && |v.files| == |w.files| && HeadsDone(v.files) + 1 == HeadsDone(w.files)
  {
    AdmitEffort(TakeHead(w), next);
    assert Effort(TakeHead(w)) == Effort(w);
    HeadsAppend(w.files[1..], Opened(TakeHead(w), Descriptor(next, FRAMES_PER_FILE)));
  }

  lemma {:induction false} HeadsAppend<T>(files: seq<Slot<T>>, s: Slot<T>)
    requires !Finished(s)
    ensures HeadsDone(files + [s]) == HeadsDone(files)
  {
    if files == [] {
      assert files + [s] == [s];
    } else {
      assert (files + [s])[1..] == files[1..] + [s];
      HeadsAppend(files[1..], s);
    }
  }

  /** What one successful call burns. */
  lemma CallBurns(init: ByteWriter, h: seq<ByteEvent>, w: ByteWriter, later: seq<ByteEvent>, v: ByteWriter,
                  taken: nat, rest: nat, n: nat, waiting: bool)
    requires Inv(init) && h <= later && Run(init, h) == Some(w) && Run(init, later) == Some(v) && Succeeds(later, |h|)
    requires v.admitted == w.admitted && v.popped == w.popped && n <= rest
    requires waiting ==> n == 0 && Work(init, later, |h|) > 0
    ensures Fuel(v, taken + n, rest - n) + n + (if waiting then 1 else 0) <= Fuel(w, taken, rest)
  {
    hide Inv, Run, Work, Effort;
    assert later[..|h|] == h;
    SuccessfulWorkSpends(init, later, |h|);
    if waiting {
      ChangingBurns(w, v, taken, rest);
    } else {
      TakingBurns(w, v, taken, rest, n);
    }
  }

  /** Enough calls to feed and close an upload of `size` bytes, if all polls succeed. */
  function PollsToUpload(size: nat): nat {
    PIPELINE_FILES * (FRAMES_PER_FILE + 4) + 165 * size
  }

  lemma FirstFuel(w: ByteWriter, size: nat)
    requires Effort(w) == PIPELINE_FILES * (FRAMES_PER_FILE + 3) && w.popped == []
    ensures Fuel(w, 0, size) + PIPELINE_FILES == PollsToUpload(size)
  {
  }

  /** What is left when everything is fed is enough to close. */
  lemma FuelCloses(w: ByteWriter, bytes: seq<byte>, next: nat, written: Files)
    requires Inv(w) && Pumping(w, bytes, next, written)
    ensures CallsLeft(w) <= Fuel(w, |bytes|, 0) + PIPELINE_FILES
  {
    FuelIsLeft(w, bytes, next, written, 0);
  }

  lemma FuelMoves(w: ByteWriter, v: ByteWriter, taken: nat, n: nat, size: nat)
    requires taken + n <= size
    ensures Fuel(w, taken, size - taken) == Fuel(w, taken, n) + 165 * (size - taken - n)
    ensures Fuel(v, taken + n, size - taken - n) == Fuel(v, taken + n, 0) + 165 * (size - taken - n)
  {
  }

  // --- what the methods of an upload see -----------------------------------------------------------

  lemma SucceedsSince(h0: seq<ByteEvent>, h: seq<ByteEvent>, after: seq<ByteEvent>)
    requires h0 <= h <= after
    ensures Succeeds(after, |h0|) ==> Succeeds(h, |h0|) && Succeeds(after, |h|)
  {
    forall k | |h0| <= k < |h|
      ensures h[k] == after[k]
    {
    }
  }

  /** Bytes that are there are taken, and frames that allocate empty become full. */
  lemma InputIsReady(rest: seq<byte>, input: Partial<seq<byte>> -> FillResult<seq<byte>>)
    requires forall p :: input(p) == FillFrom(BLOCK, rest, p)
    ensures !Hungry(input) && !Spoils(PartialOf([], BLOCK), input)
  {
  }

  lemma PumpingSeen(w: ByteWriter, bytes: seq<byte>, next: nat, written: Files)
    requires Pumping(w, bytes, next, written)
    ensures Uploading(w, bytes, next, written) && w.phase.Accepting? && |w.files| == PIPELINE_FILES == w.maxActive
  {
  }

  lemma StillPumping(w: ByteWriter, bytes: seq<byte>, next: nat, written: Files)
    requires Uploading(w, bytes, next, written) && |w.files| == PIPELINE_FILES
    ensures Pumping(w, bytes, next, written) && w.maxActive == PIPELINE_FILES
  {
  }

  lemma HeadCounted(w: ByteWriter)
    requires HeadsDone(w.files) > 0
    ensures HeadDone(w)
  {
  }

  lemma NothingToDo(w: ByteWriter)
    requires Uploading(w, [], 0, []) && w.files == []
    ensures Effort(w) == 0 && w.popped == []
  {
  }

  lemma AdmitIsEnabled(w: ByteWriter, next: nat)
    requires Uploading(w, [], next, []) && |w.files| < w.maxActive && next == |w.files|
    ensures Enabled(w, Event.PushFile(Descriptor(next, FRAMES_PER_FILE))) && NextSegment(next).Some?
    ensures |w.files| < PIPELINE_FILES && next + 1 < NUMBERS
  {
  }

  lemma AdmittedOne(w: ByteWriter, next: nat)
    ensures var v := Admit(w, Descriptor(next, FRAMES_PER_FILE)); |v.files| == |w.files| + 1 && v.popped == w.popped
  {
  }

  lemma WindowIsFull(w: ByteWriter, next: nat)
    requires Uploading(w, [], next, []) && |w.files| >= w.maxActive
    ensures Pumping(w, [], next, []) && |w.files| == PIPELINE_FILES
  {
  }

  lemma NoBytes()
    ensures Flatten<byte>([]) == []
  {
  }

  lemma Fragment(fragments: seq<seq<byte>>, i: nat)
    requires i < |fragments|
    ensures Flatten(fragments[..i + 1]) == Flatten(fragments[..i]) + fragments[i]
    ensures |Flatten(fragments[..i])| + |fragments[i]| <= |Padded(Flatten(fragments))|
  {
    assert fragments[..i + 1] == fragments[..i] + [fragments[i]];
    FlattenSnoc(fragments[..i], fragments[i]);
    assert fragments == fragments[..i + 1] + fragments[i + 1..];
    FlattenAppend(fragments[..i + 1], fragments[i + 1..]);
  }

  lemma PaddedSize(input: seq<byte>)
    ensures Padded(input) == if |input| % BLOCK == 0 then input else input + Zeros(BLOCK - |input| % BLOCK)
  {
    assert input + Zeros(0) == input;
  }

  lemma ClosesNow(events: seq<ByteEvent>, from: nat, polls: nat, w: ByteWriter)
    ensures Closes(events, from, polls, w) <==> Succeeds(events, from) && polls > CallsLeft(w)
  {
  }

  lemma StoredSeen(input: seq<byte>)
    ensures Stored(input) == Numbered(Cut(Padded(input), FILE_SIZE))
  {
  }

  lemma UploadingSeen(w: ByteWriter, bytes: seq<byte>, next: nat, written: Files)
    requires Uploading(w, bytes, next, written)
    ensures w.phase.Accepting?
  {
  }

  lemma CallsCount()
    ensures MAX_POLL_OPS > 0 && (forall n: nat :: Minus(n, n) == 0) && forall a: nat, b: nat :: Max(a, b) >= a
  {
  }
}
