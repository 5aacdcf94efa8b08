/** A reader of byte frames and the segments its files are: every answer in the reader's run is the
    one its segment gave. Each frame the reader takes for read is exactly what the segment put into
    the buffer, and no segment of whole blocks ends before it has delivered all it declared. */
module StoredReads {
  import opened Segmentation
  import opened Readers
  import opened ByteFrames
  import opened SegmentFiles

  type ByteReader = Reader<seq<byte>>

  type ByteEvent = Event<seq<byte>>

  type ByteSlot = Slot<seq<byte>>

  // --- one slot and its segment ------------------------------------------------------------------

  /** The source stands for the stored file of its number, cut into frames. */
  predicate Stands(f: Source<seq<byte>>, disk: seq<seq<byte>>) {
    f.name < |disk| && WholeFrames(disk[f.name]) && f.content == Cut(disk[f.name], BLOCK)
  }

  /** The buffer a slot reads into next, or none if its cell has none. */
  function NextBuffer(r: ByteReader, s: ByteSlot): Option<seq<byte>> {
    BufferAt(r, s.start + s.received)
  }

  /** The segment stands behind the slot: it has delivered as many frames, and the part of the next
      one it has read is in the buffer of the slot's next cell. */
  predicate Feeds(h: Handle, s: ByteSlot, buffer: Option<seq<byte>>, disk: seq<seq<byte>>) {
    && Sound(h) && Stands(s.file, disk) && s.count == |s.file.content|
    && (s.state.Reading? ==>
          && h.open && h.data == disk[s.file.name] && h.received == s.received
          && (s.received < s.count ==>
                if buffer.Some? then SegmentFiles.Reading(h, buffer.value)
                else h.offset == 0 && h.position == h.received * BLOCK))
  }

  /** The segment is asked to open, or to read into `buffer`, and answers so, leaving `out` in it. */
  predicate Answers(h: Handle, s: ByteSlot, buffer: seq<byte>, data: seq<byte>, answer: Answer<seq<byte>>,
                    out: seq<byte>, t: Handle) {
    match s.state
    case Opening =>
      (match answer
       case Pending(_) => OpenPolled(h, false, data, IoPoll.Pending, t)
       case Done => OpenPolled(h, false, data, Ready, t)
       case Failed => OpenPolled(h, false, data, IoPoll.Failed, t)
       case Eof => false)
    case Reading =>
      (match answer
       case Pending(prepared) => prepared == out && ReadPolled(h, buffer, ReadPending, out, t)
       case Done => ReadPolled(h, buffer, ReadDone, out, t)
       case Failed =>
         ReadPolled(h, buffer, ReadFailed(false), out, t) || ReadPolled(h, buffer, ReadFailed(true), out, t)
       case Eof => ReadPolled(h, buffer, ReadEnd, out, t))
  }

  /** A read that succeeded delivered the declared frame; the file did not end early. */
  predicate Real(s: ByteSlot, answer: Answer<seq<byte>>, out: seq<byte>) {
    s.state.Reading? && s.received < |s.file.content| ==>
      !answer.Eof? && (answer.Done? ==> out == s.file.content[s.received])
  }

  /** With a buffer that suits it, the segment behind a slot reads what was declared. */
  lemma AnswersAreReal(h: Handle, s: ByteSlot, buffer: seq<byte>, disk: seq<seq<byte>>, answer: Answer<seq<byte>>,
                       out: seq<byte>, t: Handle)
    requires Feeds(h, s, Some(buffer), disk) && Answers(h, s, buffer, disk[s.file.name], answer, out, t)
    ensures Real(s, answer, out)
  {
    if s.state.Reading? && s.received < s.count {
      SegmentIsSource(disk[s.file.name], s.received);
      match answer
      case Pending(_) =>
      case Done => BlockOutcome(h, buffer, ReadDone, out, t);
      case Eof => BlockOutcome(h, buffer, ReadEnd, out, t);
      case Failed =>
    }
  }

  /** After a poll that did not fail the segment stands behind the slot as the poll left it. */
  lemma PollKeepsFeeding(h: Handle, s: ByteSlot, buffer: seq<byte>, disk: seq<seq<byte>>, answer: Answer<seq<byte>>,
                         out: seq<byte>, t: Handle, s': ByteSlot, buffer': Option<seq<byte>>)
    requires Feeds(h, s, Some(buffer), disk) && Answers(h, s, buffer, disk[s.file.name], answer, out, t)
    requires s.state.Opening? ==> s.received == 0
    requires s' == match s.state
                   case Opening => s.(blocked := s'.blocked, retries := s'.retries,
                                      state := if answer.Done? then Reading else Opening)
                   case Reading => s.(blocked := s'.blocked,
                                      received := if answer.Done? then s.received + 1 else s.received)
    requires s.state.Reading? ==> s.received < s.count && (answer.Done? || (answer.Pending? && buffer' == Some(out)))
    ensures Feeds(t, s', buffer', disk)
  {
    if s.state.Reading? {
      SegmentIsSource(disk[s.file.name], s.received);
      BlockOutcome(h, buffer, if answer.Done? then ReadDone else ReadPending, out, t);
    }
  }

  /** Between two frames any buffer will do. */
  lemma AnyBufferFeeds(h: Handle, s: ByteSlot, buffer: seq<byte>, disk: seq<seq<byte>>)
    requires Feeds(h, s, None, disk) && s.received < s.count
    ensures Feeds(h, s, Some(buffer), disk)
  {
    if s.state.Reading? {
      SegmentIsSource(disk[s.file.name], s.received);
    }
  }

  /** Nothing but the end is excluded: while a file still holds declared frames its segment can
      succeed, fail, or wait. */
  lemma AnyAnswerIsPossible(h: Handle, s: ByteSlot, buffer: seq<byte>, disk: seq<seq<byte>>, kind: Answer<seq<byte>>)
    returns (answer: Answer<seq<byte>>, out: seq<byte>, t: Handle)
    requires Feeds(h, s, Some(buffer), disk) && (s.state.Reading? ==> s.received < s.count) && !kind.Eof?
    ensures (answer.Done? <==> kind.Done?) && (answer.Failed? <==> kind.Failed?)
    ensures Answers(h, s, buffer, disk[s.file.name], answer, out, t)
  {
    var data := disk[s.file.name];
    answer, out, t := kind, buffer, h;
    if s.state.Opening? {
      t := if kind.Done? then Handle(false, true, 0, data, 0, [], 0)
           else h.(opening := kind.Pending?, open := false, offset := 0);
    } else {
      SegmentIsSource(data, s.received);
      out := data[s.received * BLOCK..(s.received + 1) * BLOCK];
      SliceGrows(data, s.received * BLOCK, h.position, (s.received + 1) * BLOCK);
      assert buffer[..0] == [] && data[h.position..h.position] == [];
      if kind.Done? {
        t := h.(offset := 0, position := (s.received + 1) * BLOCK, received := h.received + 1);
      } else {
        assert out[..h.offset] == buffer[..h.offset];
        answer := if kind.Failed? then kind else Answer.Pending(out);
      }
    }
  }

  /** The same with the object: asking a segment for what the slot's state calls for. */
  method AskSegment(segment: Segment, s: ByteSlot, buffer: seq<byte>, data: seq<byte>)
    returns (answer: Answer<seq<byte>>, out: seq<byte>)
    requires Sound(segment.View())
    requires (s.state.Reading? && segment.open ==> SegmentFiles.Reading(segment.View(), buffer))
    modifies segment
    ensures Answers(old(segment.View()), s, buffer, data, answer, out, segment.View())
  {
    out := buffer;
    match s.state {
      case Opening =>
        var r := segment.PollOpenFile(false, data);
        answer := match r case Pending => Answer.Pending(buffer) case Ready => Done case Failed => Answer.Failed;
      case Reading =>
        var r;
        r, out := segment.PollRead(buffer);
        answer := match r case ReadPending => Answer.Pending(out) case ReadDone => Done
                          case ReadEnd => Eof case ReadFailed(_) => Answer.Failed;
    }
  }

  // --- a whole reader and its files ------------------------------------------------------------------

  /** What slot `i` is asked with: its segment, and the buffer its cell has or is given. */
  function Presented(r: ByteReader, i: nat, made: seq<byte>): seq<byte>
    requires i < |r.files|
  {
    var s := r.files[i];
    if s.state.Reading? && InWindow(r, s) then
      var frame := WithBuffer(r, Offset(r, s), made).frames[Offset(r, s)].frame;
      if frame.Some? then frame.value else made
    else made
  }

  /** What an event of the reader means for the segments; `out` is what a read left in its buffer. */
  ghost predicate Moves(r: ByteReader, e: ByteEvent, disk: seq<seq<byte>>, d: seq<Handle>, out: seq<byte>,
                        t: seq<Handle>)
    requires Enabled(r, e)
  {
    match e
    case PushFile(f) => Stands(f, disk) && t == d + [NO_HANDLE]
    case PollFile(i, answer, made) =>
      if Asks(r, i) then
        && i < |d| && r.files[i].file.name < |disk|
        && exists h :: Answers(d[i], r.files[i], Presented(r, i, made), disk[r.files[i].file.name], answer, out, h)
                       && t == if Step(r, e).failed then [] else d[i := h]
      else t == d
    case Emit(_) => |Step(r, e).files| <= |d| && t == d[|d| - |Step(r, e).files|..]
    case _ => t == d
  }

  /** Every slot has its segment behind it. */
  ghost predicate Fed(r: ByteReader, disk: seq<seq<byte>>, d: seq<Handle>) {
    !r.failed ==>
      && |d| == |r.files|
      && forall i :: 0 <= i < |r.files| ==> Feeds(d[i], r.files[i], NextBuffer(r, r.files[i]), disk)
  }

  /** The read of this event, if it is one, was real. */
  predicate RealEvent(r: ByteReader, e: ByteEvent, out: seq<byte>)
    requires Enabled(r, e)
  {
    e.PollFile? && Asks(r, e.index) ==> Real(r.files[e.index], e.answer, out)
  }

  /** The buffer presented to a segment suits it. */
  lemma PresentedFeeds(r: ByteReader, i: nat, made: seq<byte>, disk: seq<seq<byte>>, d: seq<Handle>)
    requires Inv(r) && !r.terminated && i < |r.files| && Asks(r, i) && Fed(r, disk, d)
    ensures Feeds(d[i], r.files[i], Some(Presented(r, i, made)), disk)
  {
    var s := r.files[i];
    LayoutFile(r, i);
    assert Feeds(d[i], s, NextBuffer(r, s), disk);
    if s.state.Reading? && NextBuffer(r, s).None? {
      AnyBufferFeeds(d[i], s, Presented(r, i, made), disk);
    }
  }

  lemma AskedIsReal(r: ByteReader, i: nat, answer: Answer<seq<byte>>, made: seq<byte>, disk: seq<seq<byte>>,
                    d: seq<Handle>, out: seq<byte>, t: seq<Handle>)
    requires Inv(r) && Enabled(r, PollFile(i, answer, made)) && Asks(r, i) && Fed(r, disk, d)
    requires Moves(r, PollFile(i, answer, made), disk, d, out, t)
    ensures Real(r.files[i], answer, out)
  {
    hide Inv, Feeds, Answers, Real;
    PresentedFeeds(r, i, made, disk, d);
    var h :| Answers(d[i], r.files[i], Presented(r, i, made), disk[r.files[i].file.name], answer, out, h);
    AnswersAreReal(d[i], r.files[i], Presented(r, i, made), disk, answer, out, h);
  }

  /** What a poll that asks its backend and does not fail makes of its own slot. */
  predicate Polled(s: ByteSlot, answer: Answer<seq<byte>>, t: ByteSlot) {
    t == match s.state
         case Opening => s.(blocked := t.blocked, retries := t.retries,
                            state := if answer.Done? then Reading else Opening)
         case Reading => s.(blocked := t.blocked, received := if answer.Done? then s.received + 1 else s.received)
  }

  lemma AskedPoll(r: ByteReader, i: nat, answer: Answer<seq<byte>>, made: seq<byte>)
    requires Inv(r) && !r.terminated && i < |r.files| && Asks(r, i) && !PollStep(r, i, answer, made).0.failed
    requires r.files[i].state.Opening? ==> !answer.Eof?
    ensures var q, s := PollStep(r, i, answer, made).0, r.files[i];
            && |q.files| == |r.files| && Polled(s, answer, q.files[i])
            && (s.state.Opening? ==> s.received == 0)
            && (s.state.Reading? ==> s.received < s.count && (answer.Done? || answer.Pending?))
            && (s.state.Reading? && answer.Pending? ==> NextBuffer(q, q.files[i]) == Some(answer.prepared))
  {
    LayoutFile(r, i);
    hide Layout, SlotCells, SlotContent, WithBuffer;
    if InWindow(r, r.files[i]) {
      WithBufferKeepsRest(r, Offset(r, r.files[i]), made);
    }
  }

  lemma UnaskedPoll(r: ByteReader, i: nat, answer: Answer<seq<byte>>, made: seq<byte>)
    requires i < |r.files| && !Asks(r, i) && !PollStep(r, i, answer, made).0.failed && !r.failed
    ensures var q, s := PollStep(r, i, answer, made).0, r.files[i];
            && |q.files| == |r.files| && q.frames == r.frames && q.emitted == r.emitted
            && q.files[i] == s.(blocked := q.files[i].blocked)
            && forall j :: 0 <= j < |r.files| && j != i ==> q.files[j] == r.files[j]
  {
    hide PollRead;
  }

  /** A poll leaves the other slots and their next buffers alone. */
  lemma OtherBuffer(r: ByteReader, i: nat, answer: Answer<seq<byte>>, made: seq<byte>, j: nat)
    requires Inv(r) && !r.terminated && i < |r.files| && j < |r.files| && i != j
    requires !PollStep(r, i, answer, made).0.failed && r.files[j].received < r.files[j].count
    ensures var q := PollStep(r, i, answer, made).0;
            |q.files| == |r.files| && q.files[j] == r.files[j] && NextBuffer(q, q.files[j]) == NextBuffer(r, r.files[j])
  {
    hide PollStep, BufferAt;
    LayoutFile(r, i);
    LayoutFile(r, j);
    PollKeepsRest(r, i, answer, made);
    IdlePoll(r, i, answer, made);
    if i < j {
      ChainOrder(r, i, j);
    } else {
      ChainOrder(r, j, i);
    }
    var p := r.files[j].start + r.files[j].received;
    if r.emitted <= p < r.emitted + |r.frames| {
      PollKeepsBuffer(r, i, answer, made, p);
    } else {
      OutsideHasNoBuffer(r, p);
      OutsideHasNoBuffer(PollStep(r, i, answer, made).0, p);
    }
  }

  lemma OutsideHasNoBuffer(r: ByteReader, p: nat)
    ensures !(r.emitted <= p < r.emitted + |r.frames|) ==> BufferAt(r, p).None?
  {
  }

  /** A finished slot has no next buffer to care about. */
  lemma FinishedFeeds(h: Handle, s: ByteSlot, buffer: Option<seq<byte>>, buffer': Option<seq<byte>>,
                      disk: seq<seq<byte>>)
    requires Feeds(h, s, buffer, disk) && s.received >= s.count
    ensures Feeds(h, s, buffer', disk)
  {
  }

  lemma OtherIsFed(r: ByteReader, i: nat, answer: Answer<seq<byte>>, made: seq<byte>, j: nat, h: Handle,
                    disk: seq<seq<byte>>)
    requires Inv(r) && !r.terminated && i < |r.files| && j < |r.files| && i != j
    requires !PollStep(r, i, answer, made).0.failed && Feeds(h, r.files[j], NextBuffer(r, r.files[j]), disk)
    ensures var q := PollStep(r, i, answer, made).0;
            |q.files| == |r.files| && Feeds(h, q.files[j], NextBuffer(q, q.files[j]), disk)
  {
    hide PollStep, BufferAt, Feeds, Inv;
    InvLayout(r);
    PollKeepsRest(r, i, answer, made);
    IdlePoll(r, i, answer, made);
    if r.files[j].received < r.files[j].count {
      OtherBuffer(r, i, answer, made, j);
    } else {
      FinishedFeeds(h, r.files[j], NextBuffer(r, r.files[j]), NextBuffer(PollStep(r, i, answer, made).0, r.files[j]),
                    disk);
    }
  }

  lemma InvLayout(r: ByteReader)
    requires Inv(r) && !r.terminated
    ensures Layout(r) && !r.failed
  {
  }

  /** The blocked flag does not matter to the segment. */
  lemma FlagFeeds(h: Handle, s: ByteSlot, t: ByteSlot, buffer: Option<seq<byte>>, disk: seq<seq<byte>>)
    requires Feeds(h, s, buffer, disk) && t == s.(blocked := t.blocked)
    ensures Feeds(h, t, buffer, disk)
  {
  }

  lemma PollIsFed(r: ByteReader, i: nat, answer: Answer<seq<byte>>, made: seq<byte>, disk: seq<seq<byte>>,
                  d: seq<Handle>, out: seq<byte>, t: seq<Handle>)
    requires Inv(r) && Enabled(r, PollFile(i, answer, made)) && Fed(r, disk, d)
    requires Moves(r, PollFile(i, answer, made), disk, d, out, t)
    ensures Fed(PollStep(r, i, answer, made).0, disk, t)
  {
    hide Inv, Feeds, Answers, PollStep, NextBuffer, Presented, Polled;
    var q := PollStep(r, i, answer, made).0;
    if !q.failed {
      InvLayout(r);
      PollKeepsRest(r, i, answer, made);
      var s := r.files[i];
      if Asks(r, i) {
        var h :| Answers(d[i], s, Presented(r, i, made), disk[s.file.name], answer, out, h)
                 && t == if Step(r, PollFile(i, answer, made)).failed then [] else d[i := h];
        AskedIsFed(r, i, answer, made, disk, d, out, h);
      } else {
        UnaskedPoll(r, i, answer, made);
        SameNext(r, q, s, q.files[i]);
        FlagFeeds(d[i], s, q.files[i], NextBuffer(r, s), disk);
      }
      forall j | 0 <= j < |q.files|
        ensures Feeds(t[j], q.files[j], NextBuffer(q, q.files[j]), disk)
      {
        if j != i {
          OtherIsFed(r, i, answer, made, j, d[j], disk);
        }
      }
    }
  }

  lemma SameNext(r: ByteReader, q: ByteReader, s: ByteSlot, t: ByteSlot)
    requires q.frames == r.frames && q.emitted == r.emitted && t.start == s.start && t.received == s.received
    ensures NextBuffer(q, t) == NextBuffer(r, s)
  {
  }

  lemma AskedIsFed(r: ByteReader, i: nat, answer: Answer<seq<byte>>, made: seq<byte>, disk: seq<seq<byte>>,
                   d: seq<Handle>, out: seq<byte>, h: Handle)
    requires Inv(r) && Enabled(r, PollFile(i, answer, made)) && Fed(r, disk, d) && Asks(r, i)
    requires i < |d| && r.files[i].file.name < |disk|
    requires Answers(d[i], r.files[i], Presented(r, i, made), disk[r.files[i].file.name], answer, out, h)
    requires !PollStep(r, i, answer, made).0.failed
    ensures var q := PollStep(r, i, answer, made).0;
            |q.files| == |r.files| && Feeds(h, q.files[i], NextBuffer(q, q.files[i]), disk)
  {
    hide Inv, Feeds, PollStep, NextBuffer, Presented;
    PresentedFeeds(r, i, made, disk, d);
    AskedPoll(r, i, answer, made);
    var q := PollStep(r, i, answer, made).0;
    PollKeepsFeeding(d[i], r.files[i], Presented(r, i, made), disk, answer, out, h, q.files[i],
                     NextBuffer(q, q.files[i]));
  }

  // --- the other events --------------------------------------------------------------------------

  /** A slot and its next buffer that stay the same still have their segment behind them. */
  lemma SameFeeds(h: Handle, s: ByteSlot, r: ByteReader, q: ByteReader, disk: seq<seq<byte>>)
    requires Feeds(h, s, NextBuffer(r, s), disk) && (s.received < s.count ==> NextBuffer(q, s) == NextBuffer(r, s))
    ensures Feeds(h, s, NextBuffer(q, s), disk)
  {
    if s.received >= s.count {
      FinishedFeeds(h, s, NextBuffer(r, s), NextBuffer(q, s), disk);
    }
  }

  lemma SameWindowIsFed(r: ByteReader, q: ByteReader, disk: seq<seq<byte>>, d: seq<Handle>)
    requires Fed(r, disk, d) && q.files == r.files && q.frames == r.frames && q.emitted == r.emitted
    requires (r.failed ==> q.failed)
    ensures Fed(q, disk, d)
  {
  }

  lemma UnblockIsFed(r: ByteReader, disk: seq<seq<byte>>, d: seq<Handle>)
    requires Fed(r, disk, d)
    ensures Fed(r.(files := Unblocked(r.files)), disk, d)
  {
    var q := r.(files := Unblocked(r.files));
    if !r.failed {
      forall i | 0 <= i < |q.files|
        ensures Feeds(d[i], q.files[i], NextBuffer(q, q.files[i]), disk)
      {
        FlagFeeds(d[i], r.files[i], q.files[i], NextBuffer(r, r.files[i]), disk);
      }
    }
  }

  lemma PushIsFed(r: ByteReader, file: Source<seq<byte>>, disk: seq<seq<byte>>, d: seq<Handle>)
    requires Fed(r, disk, d) && Stands(file, disk)
    ensures Fed(PushStep(r, file), disk, d + [NO_HANDLE])
  {
    hide Stands;
    var q := PushStep(r, file);
    if !q.failed {
      forall i | 0 <= i < |q.files|
        ensures Feeds((d + [NO_HANDLE])[i], q.files[i], NextBuffer(q, q.files[i]), disk)
      {
        if i < |r.files| {
          SameFeeds(d[i], r.files[i], r, q, disk);
        }
      }
    }
  }

  /** New cells have no buffer. */
  lemma AuthorizedBuffer(r: ByteReader, p: nat)
    ensures BufferAt(AuthorizeStep(r), p) == BufferAt(r, p)
  {
  }

  lemma AuthorizeIsFed(r: ByteReader, disk: seq<seq<byte>>, d: seq<Handle>)
    requires Fed(r, disk, d)
    ensures Fed(AuthorizeStep(r), disk, d)
  {
    hide Feeds, BufferAt, Empty, Extra;
    var q := AuthorizeStep(r);
    if !q.failed {
      forall i | 0 <= i < |q.files|
        ensures Feeds(d[i], q.files[i], NextBuffer(q, q.files[i]), disk)
      {
        AuthorizedBuffer(r, r.files[i].start + r.files[i].received);
        SameFeeds(d[i], r.files[i], r, q, disk);
      }
    }
  }

  /** Nobody reads into the frame that is handed out: all that is still to be read lies behind it. */
  lemma EmitKeepsNext(r: ByteReader, given: seq<byte>, j: nat)
    requires Inv(r) && Enabled(r, Emit(given)) && j < |r.files| && r.files[j].received < r.files[j].count
    ensures NextBuffer(EmitStep(r, given), r.files[j]) == NextBuffer(r, r.files[j])
  {
    EmitWindow(r, given);
    FrontIsReceived(r);
    hide EmitStep, Layout, Sequence;
    LayoutFile(r, j);
    if j > 0 {
      ChainOrder(r, 0, j);
    }
  }

  lemma FrontIsReceived(r: ByteReader)
    requires Inv(r) && !r.terminated && r.frames != [] && r.frames[0].complete
    ensures Layout(r) && r.files != [] && r.emitted < r.files[0].start + r.files[0].received
  {
    NonemptyWindow(r);
    LayoutFile(r, 0);
    assert CellOk(r.frames[0], r.files[0], r.emitted + 0);
  }

  lemma EmitFiles(r: ByteReader, given: seq<byte>)
    requires Inv(r) && Enabled(r, Emit(given))
    ensures var q := EmitStep(r, given);
            (q.files == r.files || (r.files != [] && q.files == r.files[1..])) && q.failed == r.failed
  {
    hide Retire, Layout;
    InvLayout(r);
    NonemptyWindow(r);
    RetireHead(r, Popped(r, given), given);
  }

  lemma EmitIsFed(r: ByteReader, given: seq<byte>, disk: seq<seq<byte>>, d: seq<Handle>, t: seq<Handle>)
    requires Inv(r) && Enabled(r, Emit(given)) && Fed(r, disk, d)
    requires |EmitStep(r, given).files| <= |d| && t == d[|d| - |EmitStep(r, given).files|..]
    ensures Fed(EmitStep(r, given), disk, t)
  {
    hide Inv, Feeds, EmitStep, NextBuffer;
    var q := EmitStep(r, given);
    EmitFiles(r, given);
    if !q.failed {
      forall i | 0 <= i < |q.files|
        ensures Feeds(t[i], q.files[i], NextBuffer(q, q.files[i]), disk)
      {
        var j := i + |r.files| - |q.files|;
        if r.files[j].received < r.files[j].count {
          EmitKeepsNext(r, given, j);
        }
        SameFeeds(d[j], r.files[j], r, q, disk);
      }
    }
  }

  lemma MoveIsFed(r: ByteReader, e: ByteEvent, disk: seq<seq<byte>>, d: seq<Handle>, out: seq<byte>, t: seq<Handle>)
    requires Inv(r) && Enabled(r, e) && Fed(r, disk, d) && Moves(r, e, disk, d, out, t)
    ensures Fed(Step(r, e), disk, t) && RealEvent(r, e, out)
  {
    hide Inv, Fed, Answers, Real, PollStep, PushStep, EmitStep, AuthorizeStep;
    match e
    case PushFile(file) => PushIsFed(r, file, disk, d);
    case PollFile(i, answer, made) =>
      PollIsFed(r, i, answer, made, disk, d, out, t);
      if Asks(r, i) {
        AskedIsReal(r, i, answer, made, disk, d, out, t);
      }
    case Emit(given) => EmitIsFed(r, given, disk, d, t);
    case Unblock => UnblockIsFed(r, disk, d);
    case Authorize => AuthorizeIsFed(r, disk, d);
    case _ => SameWindowIsFed(r, Step(r, e), disk, d);
  }

  // --- whole runs -----------------------------------------------------------------------------------

  /** The segments through a run of the reader, and what each event left in the buffer it was given. */
  ghost predicate ReadRun(r: ByteReader, events: seq<ByteEvent>, disk: seq<seq<byte>>, segments: seq<seq<Handle>>,
                          outs: seq<seq<byte>>) {
    && |outs| == |events| && |segments| == |events| + 1 && segments[0] == []
    && forall k :: 0 <= k < |events| ==>
         MovesAt(Run(r, events[..k]), events[k], disk, segments[k], outs[k], segments[k + 1])
  }

  ghost predicate MovesAt(r: Option<ByteReader>, e: ByteEvent, disk: seq<seq<byte>>, d: seq<Handle>, out: seq<byte>,
                          t: seq<Handle>) {
    r.Some? && Enabled(r.value, e) && Moves(r.value, e, disk, d, out, t)
  }

  /** The frames that segments have put into buffers, by logical position. */
  function Landed(r: ByteReader, events: seq<ByteEvent>, outs: seq<seq<byte>>): map<nat, seq<byte>>
    requires |outs| == |events|
    decreases |events|
  {
    if events == [] then map[]
    else
      var last := |events| - 1;
      var before := Landed(r, events[..last], outs[..last]);
      var q := Run(r, events[..last]);
      if q.Some? && Enabled(q.value, events[last]) then Lands(q.value, events[last], outs[last], before) else before
  }

  function Lands(r: ByteReader, e: ByteEvent, out: seq<byte>, landed: map<nat, seq<byte>>): map<nat, seq<byte>>
    requires Enabled(r, e)
  {
    if e.PollFile? && Asks(r, e.index) && r.files[e.index].state.Reading? && e.answer.Done? then
      landed[r.files[e.index].start + r.files[e.index].received := out]
    else landed
  }

  /** What has landed is the sequential reading, and all that was received or handed out has landed. */
  ghost predicate Landing(r: ByteReader, landed: map<nat, seq<byte>>) {
    && (forall p: nat :: p in landed ==> p < |Sequence(r)| && landed[p] == Sequence(r)[p])
    && (forall p :: 0 <= p < |r.outputs| ==> p in landed)
    && (forall i, p :: 0 <= i < |r.files| && r.files[i].start <= p < r.files[i].start + r.files[i].received ==>
          p in landed)
  }

  lemma PollLands(r: ByteReader, i: nat, answer: Answer<seq<byte>>, made: seq<byte>, out: seq<byte>,
                  landed: map<nat, seq<byte>>)
    requires Inv(r) && Enabled(r, PollFile(i, answer, made)) && Landing(r, landed)
    requires RealEvent(r, PollFile(i, answer, made), out)
    ensures Landing(PollStep(r, i, answer, made).0, Lands(r, PollFile(i, answer, made), out, landed))
  {
    hide Inv, Layout, SlotCells, SlotContent, PollStep, Sequence;
    var q := PollStep(r, i, answer, made).0;
    InvLayout(r);
    PolledCount(r, i, answer, made);
    SameSequence(r, q);
    if Asks(r, i) && r.files[i].state.Reading? && answer.Done? {
      LayoutFile(r, i);
      NextOfSequence(r, i);
    }
  }

  /** A poll counts one more frame as received exactly when a read succeeded. */
  lemma PolledCount(r: ByteReader, i: nat, answer: Answer<seq<byte>>, made: seq<byte>)
    requires Inv(r) && !r.terminated && i < |r.files|
    ensures var q, s := PollStep(r, i, answer, made).0, r.files[i];
            var done := Asks(r, i) && s.state.Reading? && answer.Done?;
            && q.outputs == r.outputs && q.admitted == r.admitted
            && if q.failed then q.files == [] && !done
               else
                 && |q.files| == |r.files|
                 && (forall j :: 0 <= j < |r.files| && j != i ==> q.files[j] == r.files[j])
                 && q.files[i].start == s.start && q.files[i].received == s.received + if done then 1 else 0
  {
    hide Layout, PollRead, Sequence, FileOk;
    if Asks(r, i) && r.files[i].state.Reading? {
      NextFits(r, i);
      ReadCount(r, i, answer, made);
    } else {
      FlagCount(r, i, answer, made);
    }
  }

  lemma NextFits(r: ByteReader, i: nat)
    requires Layout(r) && i < |r.files| && r.files[i].received != r.files[i].count
    ensures r.files[i].received < r.files[i].count == |r.files[i].file.content|
  {
    LayoutFile(r, i);
  }

  lemma FlagCount(r: ByteReader, i: nat, answer: Answer<seq<byte>>, made: seq<byte>)
    requires i < |r.files| && !r.failed && !(Asks(r, i) && r.files[i].state.Reading?)
    ensures var q, s := PollStep(r, i, answer, made).0, r.files[i];
            && q.outputs == r.outputs && q.admitted == r.admitted
            && if q.failed then q.files == []
               else
                 && |q.files| == |r.files|
                 && (forall j :: 0 <= j < |r.files| && j != i ==> q.files[j] == r.files[j])
                 && q.files[i].start == s.start && q.files[i].received == s.received
  {
    hide PollRead;
  }

  lemma ReadCount(r: ByteReader, i: nat, answer: Answer<seq<byte>>, made: seq<byte>)
    requires i < |r.files| && InWindow(r, r.files[i]) && !r.failed && r.files[i].received < |r.files[i].file.content|
    ensures var q, s := Readers.PollRead(r, i, answer, made).0, r.files[i];
            && q.outputs == r.outputs && q.admitted == r.admitted && (answer.Done? ==> !q.failed)
            && if q.failed then q.files == []
               else
                 && |q.files| == |r.files|
                 && (forall j :: 0 <= j < |r.files| && j != i ==> q.files[j] == r.files[j])
                 && q.files[i].start == s.start && q.files[i].received == s.received + if answer.Done? then 1 else 0
  {
    hide WithBuffer;
    WithBufferKeepsRest(r, Offset(r, r.files[i]), made);
  }

  /** The frame a slot reads next, as a frame of the sequential reading. */
  lemma NextOfSequence(r: ByteReader, i: nat)
    requires Layout(r) && i < |r.files| && r.files[i].received < r.files[i].count
    ensures var s := r.files[i];
            && s.received < |s.file.content| && s.start + s.received < |Sequence(r)|
            && Sequence(r)[s.start + s.received] == s.file.content[s.received]
  {
    hide Sequence;
    LayoutFile(r, i);
    var s := r.files[i];
    assert Sequence(r)[s.start..s.start + s.count][s.received] == Sequence(r)[s.start + s.received];
  }

  lemma EmitLands(r: ByteReader, given: seq<byte>, landed: map<nat, seq<byte>>)
    requires Inv(r) && Enabled(r, Emit(given)) && Landing(r, landed)
    ensures Landing(EmitStep(r, given), landed)
  {
    hide Inv, Sequence, Retire, FileOk, Chain;
    EmitFiles(r, given);
    FrontIsReceived(r);
    HeadHoldsFront(r);
    EmitChanges(r, given);
    SameSequence(r, EmitStep(r, given));
  }

  lemma HeadHoldsFront(r: ByteReader)
    requires Layout(r) && r.files != []
    ensures r.files[0].start <= r.emitted
  {
  }

  lemma PushLands(r: ByteReader, file: Source<seq<byte>>, landed: map<nat, seq<byte>>)
    requires Landing(r, landed)
    ensures Landing(PushStep(r, file), landed)
  {
    hide Sequence;
    PushSequence(r, file);
  }

  lemma UnblockLands(r: ByteReader, landed: map<nat, seq<byte>>)
    requires Landing(r, landed)
    ensures Landing(r.(files := Unblocked(r.files)), landed)
  {
    hide Sequence;
    SameSequence(r, r.(files := Unblocked(r.files)));
  }

  lemma SameFilesLand(r: ByteReader, q: ByteReader, landed: map<nat, seq<byte>>)
    requires Landing(r, landed) && q.files == r.files && q.outputs == r.outputs && q.admitted == r.admitted
    ensures Landing(q, landed)
  {
    hide Sequence;
    SameSequence(r, q);
  }

  lemma MoveLands(r: ByteReader, e: ByteEvent, out: seq<byte>, landed: map<nat, seq<byte>>)
    requires Inv(r) && Enabled(r, e) && RealEvent(r, e, out) && Landing(r, landed)
    ensures Landing(Step(r, e), Lands(r, e, out, landed))
  {
    hide Inv, Landing, RealEvent, PollStep, PushStep, EmitStep, AuthorizeStep, Extra;
    match e
    case PushFile(file) => PushLands(r, file, landed);
    case PollFile(i, answer, made) => PollLands(r, i, answer, made, out, landed);
    case Emit(given) => EmitLands(r, given, landed);
    case Unblock => UnblockLands(r, landed);
    case Authorize => AuthorizedFiles(r); SameFilesLand(r, Step(r, e), landed);
    case _ => SameFilesLand(r, Step(r, e), landed);
  }

  lemma AuthorizedFiles(r: ByteReader)
    ensures var q := AuthorizeStep(r); q.files == r.files && q.outputs == r.outputs && q.admitted == r.admitted
  {
  }

  ghost predicate Starts(r: ByteReader) {
    Inv(r) && r.files == [] && r.outputs == []
  }

  lemma NothingIsFed(r: ByteReader, disk: seq<seq<byte>>)
    requires Starts(r)
    ensures Fed(r, disk, []) && Landing(r, map[])
  {
  }

  /** At every moment of a run each slot has its segment behind it, and what has landed is the
      sequential reading. */
  lemma {:induction false} ReadRunIsFed(r: ByteReader, events: seq<ByteEvent>, disk: seq<seq<byte>>,
                                        segments: seq<seq<Handle>>, outs: seq<seq<byte>>)
    requires Starts(r) && ReadRun(r, events, disk, segments, outs)
    ensures var q := Run(r, events);
            q.Some? && Fed(q.value, disk, segments[|events|]) && Landing(q.value, Landed(r, events, outs))
    decreases |events|
  {
    hide Starts, Inv, Fed, Moves, Enabled, Step, Landing, Lands, RealEvent;
    if events == [] {
      NothingIsFed(r, disk);
    } else {
      var last := |events| - 1;
      var before := events[..last];
      forall k | 0 <= k < last
        ensures MovesAt(Run(r, before[..k]), before[k], disk, segments[k], outs[k], segments[k + 1])
      {
        assert before[..k] == events[..k];
        assert MovesAt(Run(r, events[..k]), events[k], disk, segments[k], outs[k], segments[k + 1]);
      }
      ReadRunIsFed(r, before, disk, segments[..|events|], outs[..last]);
      assert MovesAt(Run(r, events[..last]), events[last], disk, segments[last], outs[last], segments[last + 1]);
      StartsInv(r);
      EveryRunKeepsInv(r, before);
      var q := Run(r, before).value;
      MoveIsFed(q, events[last], disk, segments[last], outs[last], segments[last + 1]);
      MoveLands(q, events[last], outs[last], Landed(r, before, outs[..last]));
    }
  }

  lemma StartsInv(r: ByteReader)
    requires Starts(r)
    ensures Inv(r)
  {
  }

  /** The positions of `frames`, and no others, have landed. */
  ghost predicate Lists(landed: map<nat, seq<byte>>, frames: seq<seq<byte>>) {
    && (forall p: nat :: p in landed <==> p < |frames|)
    && (forall p :: 0 <= p < |frames| ==> landed[p] == frames[p])
  }

  /** Main result. Whatever the file system does in every poll of every segment, each frame the reader
      has handed out is the one that segments put into its buffer, by short reads resumed over
      waits; at the end of a clean run these are all frames of all files. */
  lemma OutputsAreReal(r: ByteReader, events: seq<ByteEvent>, disk: seq<seq<byte>>, segments: seq<seq<Handle>>,
                       outs: seq<seq<byte>>)
    requires Starts(r) && ReadRun(r, events, disk, segments, outs)
    ensures Run(r, events).Some?
    ensures var q, landed := Run(r, events).value, Landed(r, events, outs);
            && (forall p :: 0 <= p < |q.outputs| ==> p in landed && landed[p] == q.outputs[p])
            && (q.terminated && !q.failed ==>
                  q.outputs == Flatten(Contents(q.admitted)) && Lists(landed, q.outputs))
  {
    hide Starts, Inv, Fed, Contents, Run;
    ReadRunIsFed(r, events, disk, segments, outs);
    StartsInv(r);
    EveryRunReadsSequentially(r, events, Run(r, events).value);
  }

  // --- segments for every run ------------------------------------------------------------------------

  /** An event that segments can bring about: the files stand for stored ones, an open does not end,
      a file does not end early, and a read that waits leaves a whole buffer. */
  predicate Plausible(r: ByteReader, e: ByteEvent, disk: seq<seq<byte>>)
    requires Enabled(r, e)
  {
    match e
    case PushFile(file) => Stands(file, disk)
    case PollFile(i, answer, _) =>
      Asks(r, i) ==> !answer.Eof? && (r.files[i].state.Reading? && answer.Pending? ==> |answer.prepared| == BLOCK)
    case _ => true
  }

  predicate PlausibleAt(r: Option<ByteReader>, e: ByteEvent, disk: seq<seq<byte>>) {
    r.Some? && Enabled(r.value, e) && Plausible(r.value, e, disk)
  }

  ghost predicate PlausibleRun(r: ByteReader, events: seq<ByteEvent>, disk: seq<seq<byte>>) {
    forall k :: 0 <= k < |events| ==> PlausibleAt(Run(r, events[..k]), events[k], disk)
  }

  /** No segment is inside a frame. */
  predicate Even(d: seq<Handle>) {
    forall i :: 0 <= i < |d| ==> d[i].offset == 0
  }

  lemma SomeAnswer(h: Handle, s: ByteSlot, buffer: seq<byte>, disk: seq<seq<byte>>, answer: Answer<seq<byte>>)
    returns (out: seq<byte>, t: Handle)
    requires Feeds(h, s, Some(buffer), disk) && h.offset == 0 && !answer.Eof?
    requires s.state.Reading? ==> s.received < s.count && (answer.Pending? ==> |answer.prepared| == BLOCK)
    ensures Answers(h, s, buffer, disk[s.file.name], answer, out, t) && t.offset == 0
  {
    var data := disk[s.file.name];
    out, t := buffer, h;
    if s.state.Opening? {
      t := if answer.Done? then Handle(false, true, 0, data, 0, [], 0)
           else h.(opening := answer.Pending?, open := false, offset := 0);
    } else {
      SegmentIsSource(data, s.received);
      out := if answer.Pending? then answer.prepared else data[s.received * BLOCK..(s.received + 1) * BLOCK];
      assert buffer[..0] == [] == out[..0] && data[h.position..h.position] == [];
      if answer.Done? {
        t := h.(position := (s.received + 1) * BLOCK, received := h.received + 1);
      }
    }
  }

  lemma SomePoll(r: ByteReader, i: nat, answer: Answer<seq<byte>>, made: seq<byte>, disk: seq<seq<byte>>,
                 d: seq<Handle>)
    returns (out: seq<byte>, t: seq<Handle>)
    requires Inv(r) && Enabled(r, PollFile(i, answer, made)) && Fed(r, disk, d) && Even(d)
    requires Plausible(r, PollFile(i, answer, made), disk)
    ensures Moves(r, PollFile(i, answer, made), disk, d, out, t) && Even(t)
  {
    hide Inv, Feeds, Answers, Presented, NextBuffer;
    out, t := [], d;
    InvLayout(r);
    if Asks(r, i) {
      PresentedFeeds(r, i, made, disk, d);
      NextIsDue(r, i);
      var h;
      out, h := SomeAnswer(d[i], r.files[i], Presented(r, i, made), disk, answer);
      StandsFor(d[i], r.files[i], Some(Presented(r, i, made)), disk);
      t := if Step(r, PollFile(i, answer, made)).failed then [] else d[i := h];
    }
  }

  lemma NextIsDue(r: ByteReader, i: nat)
    requires Layout(r) && i < |r.files| && Asks(r, i)
    ensures r.files[i].state.Reading? ==> r.files[i].received < r.files[i].count
  {
    LayoutFile(r, i);
  }

  lemma StandsFor(h: Handle, s: ByteSlot, buffer: Option<seq<byte>>, disk: seq<seq<byte>>)
    requires Feeds(h, s, buffer, disk)
    ensures s.file.name < |disk|
  {
  }

  lemma SomeMove(r: ByteReader, e: ByteEvent, disk: seq<seq<byte>>, d: seq<Handle>)
    returns (out: seq<byte>, t: seq<Handle>)
    requires Inv(r) && Enabled(r, e) && Fed(r, disk, d) && Even(d) && Plausible(r, e, disk)
    ensures Moves(r, e, disk, d, out, t) && Even(t)
  {
    hide Inv, Feeds, Answers, PollStep, EmitStep, AuthorizeStep;
    out, t := [], d;
    match e
    case PushFile(_) => t := d + [NO_HANDLE];
    case PollFile(i, answer, made) => out, t := SomePoll(r, i, answer, made, disk, d);
    case Emit(given) => EmitFiles(r, given); InvLayout(r); t := d[|d| - |Step(r, e).files|..];
    case _ =>
  }

  /** Every plausible run is one that segments can bring about. */
  lemma {:induction false} EveryRunHasSegments(r: ByteReader, events: seq<ByteEvent>, disk: seq<seq<byte>>)
    returns (segments: seq<seq<Handle>>, outs: seq<seq<byte>>)
    requires Starts(r) && PlausibleRun(r, events, disk)
    ensures ReadRun(r, events, disk, segments, outs) && Even(segments[|events|])
    decreases |events|
  {
    hide Starts, Inv, Fed, Moves, Enabled, Step, Plausible, Landing;
    if events == [] {
      segments, outs := [[]], [];
    } else {
      var last := |events| - 1;
      var before := events[..last];
      forall k | 0 <= k < last
        ensures PlausibleAt(Run(r, before[..k]), before[k], disk)
      {
        assert before[..k] == events[..k];
        assert PlausibleAt(Run(r, events[..k]), events[k], disk);
      }
      segments, outs := EveryRunHasSegments(r, before, disk);
      ghost var segments0, outs0 := segments, outs;
      ReadRunIsFed(r, before, disk, segments, outs);
      StartsInv(r);
      EveryRunKeepsInv(r, before);
      assert PlausibleAt(Run(r, events[..last]), events[last], disk);
      var out, t := SomeMove(Run(r, before).value, events[last], disk, segments[last]);
      segments, outs := segments + [t], outs + [out];
      forall k | 0 <= k < |events|
        ensures MovesAt(Run(r, events[..k]), events[k], disk, segments[k], outs[k], segments[k + 1])
      {
        if k < last {
          assert before[..k] == events[..k];
          assert MovesAt(Run(r, before[..k]), before[k], disk, segments0[k], outs0[k], segments0[k + 1]);
        }
      }
    }
  }
}
