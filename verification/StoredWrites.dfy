/** A writer of bytes and the segments its destinations are: every answer in the writer's run is the
    one its segment gave. The files the segments leave behind hold exactly the writer's results. */
module StoredWrites {
  import opened Segmentation
  import opened WriteSlots
  import opened Writers
  import opened WriteSchedulers
  import opened ByteFrames
  import opened SegmentFiles
  import opened SegmentNames
  import opened Catalogs

  type ByteWriter = Writer<seq<byte>>

  type ByteEvent = Event<seq<byte>>

  type ByteSlot = Slot<seq<byte>>

  // --- one slot and its segment ------------------------------------------------------------------

  /** The segment stands behind the slot: its log is the slot's, and the frame it is in the middle
      of, if any, is the one the slot presents next. */
  predicate Backs(h: Handle, s: ByteSlot) {
    && Sound(h)
    && match s.state
       case Writing =>
         && h.open && h.log == s.file.contents
         && if s.frames.HasNext(s.written) then SegmentFiles.Writing(h, s.frames.Next(s.written)) else Between(h)
       case Closing => h.open && h.log == s.file.contents && Between(h)
       case Closed(output) => h.data == Flatten(output)
       case _ => true
  }

  function IoOf(answer: Response<seq<byte>>): IoPoll {
    match answer
    case Pending => IoPoll.Pending
    case Done => Ready
    case Failed(_) => IoPoll.Failed
  }

  function AnswerOf(r: IoPoll): Response<seq<byte>> {
    match r
    case Pending => Response.Pending
    case Ready => Done
    case Failed => Response.Failed([])
  }

  /** The segment is asked what the slot's state calls for, and answers so. */
  predicate Answers(h: Handle, s: ByteSlot, answer: Response<seq<byte>>, t: Handle) {
    match s.state
    case Opening => OpenPolled(h, true, [], IoOf(answer), t)
    case Writing =>
      if s.frames.HasNext(s.written) then WritePolled(h, s.frames.Next(s.written), IoOf(answer), t) else t == h
    case Closing => ClosePolled(h, IoOf(answer), t)
    case _ => t == h
  }

  /** Whatever the file system does, short writes, waits inside a frame, errors that lead to a new
      attempt: after the poll the segment still stands behind the slot. */
  lemma PollKeepsBacking(h: Handle, s: ByteSlot, answer: Response<seq<byte>>, t: Handle, closing: bool, maxRetries: nat)
    requires Backs(h, s) && Answers(h, s, answer, t)
    ensures var r := Poll(s, answer, closing, maxRetries);
            r.Polled? ==> Backs(t, r.slot)
  {
    var r := Poll(s, answer, closing, maxRetries);
    if s.state.Opening? && answer.Done? {
      NextMayFollow(t, r.slot);
    } else if s.state.Writing? && s.frames.HasNext(s.written) {
      WriteOutcome(h, s.frames.Next(s.written), IoOf(answer), t);
      if answer.Done? {
        NextMayFollow(t, r.slot);
      }
    }
  }

  /** Between two frames any frame may follow. */
  lemma NextMayFollow(t: Handle, s: ByteSlot)
    requires s.state.Writing? && t.open && Between(t) && t.log == s.file.contents && Sound(t)
    ensures Backs(t, s)
  {
    if s.frames.HasNext(s.written) {
      BetweenFrames(t, s.frames.Next(s.written));
    }
  }

  /** Nothing is excluded: a segment can give any answer while a nonempty frame is in progress. */
  lemma AnyAnswerIsPossible(h: Handle, s: ByteSlot, answer: Response<seq<byte>>) returns (t: Handle)
    requires Backs(h, s) && WriteSlots.Asks(s)
    requires s.state.Writing? ==> s.frames.Next(s.written) != []
    ensures Answers(h, s, answer, t)
  {
    t := h;
    if s.state.Opening? {
      t := match IoOf(answer)
           case Pending => h.(opening := true, open := false, offset := 0)
           case Ready => Handle(false, true, 0, [], 0, [], 0)
           case Failed => h.(opening := false, open := false, offset := 0);
    } else if s.state.Writing? {
      var frame := s.frames.Next(s.written);
      if answer.Done? {
        t := h.(offset := 0, data := h.data + frame[h.offset..], log := h.log + [frame]);
      } else {
        assert frame[h.offset..h.offset] == [];
      }
    }
  }

  /** Handing the slot another frame does not disturb the one in progress. */
  lemma PushKeepsBacking(h: Handle, s: ByteSlot, frame: seq<byte>, maxRetries: nat)
    requires Backs(h, s) && SlotInv(s, maxRetries) && !s.state.Closing? && !s.state.Closed?
    ensures Backs(h, WriteSlots.Push(s, frame))
  {
    if s.state.Writing? {
      BetweenFrames(h, WriteSlots.Push(s, frame).frames.Next(s.written));
    }
  }

  /** The same with the objects: polling a slot whose backend is a segment. */
  method PollStored(slot: FileSlot<seq<byte>>, segment: Segment, closing: bool, maxRetries: nat)
    returns (answer: Response<seq<byte>>, fatal: bool, changed: bool, released: nat)
    requires Backs(segment.View(), slot.View())
    modifies slot, segment
    ensures Answers(old(segment.View()), old(slot.View()), answer, segment.View())
    ensures WriteSlots.Poll(old(slot.View()), answer, closing, maxRetries)
            == if fatal then Fatal else Polled(slot.View(), changed, released)
    ensures !fatal ==> Backs(segment.View(), slot.View())
  {
    ghost var h, s := segment.View(), slot.View();
    answer := AskSegment(slot, segment);
    PollKeepsBacking(h, s, answer, segment.View(), closing, maxRetries);
    fatal, changed, released := slot.Poll(answer, closing, maxRetries);
  }

  /** Ask the segment for what the slot's state calls for. */
  method AskSegment(slot: FileSlot<seq<byte>>, segment: Segment) returns (answer: Response<seq<byte>>)
    requires Backs(segment.View(), slot.View())
    modifies segment
    ensures Answers(old(segment.View()), slot.View(), answer, segment.View())
  {
    var r := Ready;
    match slot.state {
      case Opening => r := segment.PollOpenFile(true, []);
      case Writing =>
        if slot.frames.HasNext(slot.written) {
          r := segment.PollWrite(slot.frames.Next(slot.written));
        }
      case Closing => r := segment.PollClose();
      case _ =>
    }
    answer := AnswerOf(r);
  }

  // --- a whole writer and its directory ------------------------------------------------------------

  /** The segments of the destinations in the window, and the files left by those that went. */
  datatype Disk = Disk(segments: seq<Handle>, left: Files)

  function LeftBy(w: ByteWriter, d: Disk): Entry<seq<byte>>
    requires w.files != [] && d.segments != []
  {
    Entry(FileName(w.files[0].file.name), d.segments[0].data)
  }

  /** What an event of the writer means for the segments. A failed writer drops them. */
  predicate Moves(w: ByteWriter, e: ByteEvent, d: Disk, t: Disk)
    requires Enabled(w, e)
  {
    if Step(w, e).phase.Broken? then t.left == d.left
    else
      match e
      case PushFile(_) => t == d.(segments := d.segments + [NO_HANDLE])
      case PollSlot(i, answer) =>
        && i < |d.segments| == |t.segments| && t == d.(segments := d.segments[i := t.segments[i]])
        && Answers(d.segments[i], w.files[i], answer, t.segments[i])
      case PopSwap(_) => d.segments != [] && t == Disk(d.segments[1..] + [NO_HANDLE], d.left + [LeftBy(w, d)])
      case PopFile => d.segments != [] && t == Disk(d.segments[1..], d.left + [LeftBy(w, d)])
      case BeginClose => |Step(w, e).files| <= |d.segments| && t == d.(segments := d.segments[..|Step(w, e).files|])
      case _ => t == d
  }

  /** Every slot has its segment behind it, and every result lies in a file of its name. */
  ghost predicate Backed(w: ByteWriter, d: Disk) {
    && (!w.phase.Broken? ==>
          |d.segments| == |w.files| && forall i :: 0 <= i < |w.files| ==> Backs(d.segments[i], w.files[i]))
    && OnDisk(w, d.left)
  }

  ghost predicate OnDisk(w: ByteWriter, files: Files) {
    && |files| == |w.popped|
    && forall k :: 0 <= k < |files| ==>
         files[k] == Entry(FileName(w.popped[k].descriptor.name), Flatten(w.popped[k].output))
  }

  lemma PollIsBacked(w: ByteWriter, i: nat, answer: Response<seq<byte>>, d: Disk, t: Disk)
    requires Inv(w) && Enabled(w, PollSlot(i, answer)) && Backed(w, d) && Moves(w, PollSlot(i, answer), d, t)
    ensures Backed(PollStep(w, i, answer), t)
  {
    PollKeepsPopped(w, i, answer);
    if Poll(w.files[i], answer, w.phase.Draining?, w.maxRetries).Polled? {
      PollKeepsBacking(d.segments[i], w.files[i], answer, t.segments[i], w.phase.Draining?, w.maxRetries);
    }
    hide Inv, Backs, Answers, Poll;
  }

  lemma PollKeepsPopped(w: ByteWriter, i: nat, answer: Response<seq<byte>>)
    requires i < |w.files|
    ensures PollStep(w, i, answer).popped == w.popped
  {
  }

  lemma FlushIsBacked(w: ByteWriter, d: Disk)
    requires Shape(w.(partial := None)) && w.phase.Accepting? && (w.partial.Some? ==> w.fill < |w.files|)
    requires Backed(w, d)
    ensures Backed(Flush(w), d) && |Flush(w).files| == |w.files| && Flush(w).phase == w.phase
  {
    if w.partial.Some? && !w.partial.value.empty {
      assert FileOk(w.(partial := None), w.fill);
      PushKeepsBacking(d.segments[w.fill], w.files[w.fill], w.partial.value.value, w.maxRetries);
    }
    hide Shape, Backs;
  }

  lemma CloseIsBacked(w: ByteWriter, d: Disk)
    requires Inv(w) && w.phase.Accepting? && Backed(w, d)
    ensures var v := CloseStep(w);
            |v.files| <= |d.segments| && Backed(v, d.(segments := d.segments[..|v.files|]))
  {
    hide Inv, Shape, Backs, Flush, DropUnused, Backed;
    InvShape(w);
    SameFilesKeepShape(w, w.(partial := None));
    FlushIsBacked(w, d);
    FlushIgnoresPhase(w);
    var k := DropUnusedPrefix(Flush(w).files);
    FewerAreBacked(Flush(w), CloseStep(w), d, k);
  }

  lemma InvShape(w: ByteWriter)
    requires Inv(w) && w.phase.Accepting?
    ensures Shape(w) && (w.partial.Some? ==> w.fill < |w.files|)
  {
  }

  lemma FewerAreBacked(w: ByteWriter, v: ByteWriter, d: Disk, k: nat)
    requires Backed(w, d) && !w.phase.Broken? && k <= |w.files| && v.files == w.files[..k] && v.popped == w.popped
    ensures k <= |d.segments| && Backed(v, d.(segments := d.segments[..k]))
  {
    hide Backs;
  }

  lemma FillIsBacked(w: ByteWriter, result: FillResult<seq<byte>>, d: Disk, t: Disk)
    requires Inv(w) && Enabled(w, Fill(result)) && Backed(w, d) && Moves(w, Fill(result), d, t)
    ensures Backed(FillStep(w, result), t)
  {
    if result.FillDone? && result.after.complete && !result.after.empty {
      var v := w.(partial := Some(result.after));
      SameFilesKeepShape(w, v.(partial := None));
      FlushIsBacked(v, d);
    }
    hide Shape, Backs;
  }

  lemma TakeHeadIsBacked(w: ByteWriter, d: Disk)
    requires Inv(w) && !w.phase.Broken? && HeadDone(w) && Backed(w, d)
    ensures d.segments != [] && Backed(TakeHead(w), Disk(d.segments[1..], d.left + [LeftBy(w, d)]))
  {
    assert FileOk(w, 0) && Backs(d.segments[0], w.files[0]);
    hide Inv, Shape;
  }

  lemma AdmitIsBacked(w: ByteWriter, file: Descriptor, d: Disk)
    requires Backed(w, d)
    ensures Backed(Admit(w, file), d.(segments := d.segments + [NO_HANDLE]))
  {
  }

  lemma MoveIsBacked(w: ByteWriter, e: ByteEvent, d: Disk, t: Disk)
    requires Inv(w) && Enabled(w, e) && Backed(w, d) && Moves(w, e, d, t)
    ensures Backed(Step(w, e), t)
  {
    hide Inv, Backs, Answers, PollStep, FillStep, CloseStep;
    match e
    case PushFile(file) => AdmitIsBacked(w, file, d);
    case PollSlot(i, answer) => PollIsBacked(w, i, answer, d, t);
    case Fill(result) => FillIsBacked(w, result, d, t);
    case PopSwap(file) =>
      TakeHeadIsBacked(w, d);
      AdmitIsBacked(TakeHead(w), file, Disk(d.segments[1..], d.left + [LeftBy(w, d)]));
    case BeginClose => CloseIsBacked(w, d); CloseNotBroken(w);
    case PopFile => TakeHeadIsBacked(w, d);
    case _ =>
  }

  lemma CloseNotBroken(w: ByteWriter)
    requires w.partial.Some? ==> w.fill < |w.files|
    ensures !CloseStep(w).phase.Broken?
  {
  }

  /** The directory through a run of the writer, from an empty one. */
  ghost predicate DiskRun(w: ByteWriter, events: seq<ByteEvent>, disks: seq<Disk>) {
    && |disks| == |events| + 1 && disks[0] == Disk([], [])
    && forall k :: 0 <= k < |events| ==> MovesAt(Run(w, events[..k]), events[k], disks[k], disks[k + 1])
  }

  predicate MovesAt(w: Option<ByteWriter>, e: ByteEvent, d: Disk, t: Disk) {
    w.Some? && Enabled(w.value, e) && Moves(w.value, e, d, t)
  }

  /** Main result. Whatever the file system does in every poll of every segment, at each moment the
      files left behind are the writer's results under the names of their destinations. */
  lemma {:induction false} DiskHoldsResults(w: ByteWriter, events: seq<ByteEvent>, disks: seq<Disk>)
    requires Inv(w) && w.files == [] && w.popped == [] && DiskRun(w, events, disks)
    ensures Run(w, events).Some? && Backed(Run(w, events).value, disks[|events|])
    decreases |events|
  {
    hide Inv, Backed, Moves, Enabled, Step;
    if events == [] {
      NothingIsBacked(w);
    } else {
      var last := |events| - 1;
      var before := events[..last];
      forall k | 0 <= k < last
        ensures MovesAt(Run(w, before[..k]), before[k], disks[k], disks[k + 1])
      {
        assert before[..k] == events[..k];
        assert MovesAt(Run(w, events[..k]), events[k], disks[k], disks[k + 1]);
      }
      DiskHoldsResults(w, before, disks[..|events|]);
      assert MovesAt(Run(w, events[..last]), events[last], disks[last], disks[last + 1]);
      EveryRunKeepsInv(w, before);
      MoveIsBacked(Run(w, before).value, events[last], disks[last], disks[last + 1]);
    }
  }

  lemma NothingIsBacked(w: ByteWriter)
    requires w.files == [] && w.popped == []
    ensures Backed(w, Disk([], []))
  {
  }

  // --- segments for every run ------------------------------------------------------------------------

  /** The frame a slot presents next is one that was fed. */
  lemma NextIsFed(w: ByteWriter, i: nat)
    requires Shape(w) && History(w) && i < |w.files|
    requires w.files[i].state.Writing? && w.files[i].frames.HasNext(w.files[i].written)
    ensures w.files[i].frames.Next(w.files[i].written) in w.fed
  {
    var s := w.files[i];
    assert FileOk(w, i) && Assigned(s)[s.written] == s.frames.Next(s.written);
    assert w.files == w.files[..i] + w.files[i..];
    ContentsAppend(w.files[..i], w.files[i..]);
    assert Assigned(s)[s.written] in Contents(w.files[i..]);
  }

  lemma FedGrows(w: ByteWriter, e: ByteEvent)
    requires Enabled(w, e)
    ensures w.fed <= Step(w, e).fed
  {
    hide Needed, Fits, DropUnused;
  }

  /** As long as no frame is empty, segments can behave as any event says. */
  lemma SomeMove(w: ByteWriter, e: ByteEvent, d: Disk) returns (t: Disk)
    requires Inv(w) && Enabled(w, e) && Backed(w, d) && [] !in w.fed
    ensures Moves(w, e, d, t)
  {
    hide Answers;
    t := d;
    if !Step(w, e).phase.Broken? {
      match e
      case PushFile(_) => t := d.(segments := d.segments + [NO_HANDLE]);
      case PollSlot(i, answer) =>
        var h := SomeAnswer(w, i, answer, d.segments[i]);
        t := d.(segments := d.segments[i := h]);
      case PopSwap(_) => t := Disk(d.segments[1..] + [NO_HANDLE], d.left + [LeftBy(w, d)]);
      case PopFile => t := Disk(d.segments[1..], d.left + [LeftBy(w, d)]);
      case BeginClose => CloseIsBacked(w, d); t := d.(segments := d.segments[..|Step(w, e).files|]);
      case _ =>
    }
  }

  lemma SomeAnswer(w: ByteWriter, i: nat, answer: Response<seq<byte>>, h: Handle) returns (t: Handle)
    requires Inv(w) && !w.phase.Broken? && i < |w.files| && Backs(h, w.files[i]) && [] !in w.fed
    ensures Answers(h, w.files[i], answer, t)
  {
    hide Backs, Shape, History;
    t := h;
    if WriteSlots.Asks(w.files[i]) {
      if w.files[i].state.Writing? {
        NextIsFed(w, i);
      }
      t := AnyAnswerIsPossible(h, w.files[i], answer);
    }
  }

  /** Every run of a writer that was fed no empty frame is one that segments can bring about. */
  lemma {:induction false} EveryRunHasDisk(w: ByteWriter, events: seq<ByteEvent>) returns (disks: seq<Disk>)
    requires Inv(w) && w.files == [] && w.popped == []
    requires Run(w, events).Some? && [] !in Run(w, events).value.fed
    ensures DiskRun(w, events, disks)
    decreases |events|
  {
    hide Inv, Backed, Moves, Enabled, Step;
    if events == [] {
      disks := [Disk([], [])];
    } else {
      var last := |events| - 1;
      var before := events[..last];
      var v := Run(w, before).value;
      FedGrows(v, events[last]);
      var sofar := EveryRunHasDisk(w, before);
      DiskHoldsResults(w, before, sofar);
      EveryRunKeepsInv(w, before);
      var t := SomeMove(v, events[last], sofar[last]);
      disks := sofar + [t];
      forall k | 0 <= k < |events|
        ensures MovesAt(Run(w, events[..k]), events[k], disks[k], disks[k + 1])
      {
        if k < last {
          assert before[..k] == events[..k];
          assert MovesAt(Run(w, before[..k]), before[k], sofar[k], sofar[k + 1]);
        }
      }
    }
  }

  /** Whatever the segments did in this run, these are the files they left; and segments can have
      brought it about. */
  ghost predicate Leaves(w: ByteWriter, events: seq<ByteEvent>, files: Files) {
    && (forall disks: seq<Disk> :: DiskRun(w, events, disks) ==> disks[|events|].left == files)
    && (exists disks: seq<Disk> :: DiskRun(w, events, disks))
  }

  lemma ResultsAreLeft(w: ByteWriter, events: seq<ByteEvent>, files: Files)
    requires Inv(w) && w.files == [] && w.popped == []
    requires Run(w, events).Some? && OnDisk(Run(w, events).value, files) && [] !in Run(w, events).value.fed
    ensures Leaves(w, events, files)
  {
    hide Inv, Run;
    forall disks: seq<Disk> | DiskRun(w, events, disks)
      ensures disks[|events|].left == files
    {
      DiskHoldsResults(w, events, disks);
    }
    var disks := EveryRunHasDisk(w, events);
  }
}
