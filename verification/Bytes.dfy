/** Byte frames of a fixed maximum size, filled from arbitrarily sliced input. */
module ByteFrames {
  import opened Naturals
  import opened Segmentation
  import opened Writers

  newtype byte = b: int | 0 <= b < 256

  /** A partial frame as the writer sees it. */
  function PartialOf(bytes: seq<byte>, size: nat): Partial<seq<byte>> {
    Partial(bytes, bytes == [], |bytes| == size)
  }

  /** What one fill of partial frame `p` from `chunk` leaves, and how much it consumes. */
  function FillFrom(size: nat, chunk: seq<byte>, p: Partial<seq<byte>>): FillResult<seq<byte>> {
    var count := Min(Minus(size, |p.value|), |chunk|);
    FillDone(PartialOf(p.value + chunk[..count], size), count)
  }

  class BytesPartialFrame {
    const frameSize: nat
    var bytes: seq<byte>

    function View(): Partial<seq<byte>>
      reads this
    {
      PartialOf(bytes, frameSize)
    }

    /** An empty frame; it is incomplete unless frames have no size. */
    constructor (frameSize: nat)
      ensures this.frameSize == frameSize && bytes == []
      ensures frameSize > 0 ==> View().empty && !View().complete
    {
      this.frameSize := frameSize;
      bytes := [];
    }

    /** Take as much of `input` as still fits. */
    method PollFill(input: seq<byte>) returns (count: nat)
      modifies this
      ensures FillDone(View(), count) == FillFrom(frameSize, input, old(View()))
      ensures count <= |input| && bytes == old(bytes) + input[..count]
      ensures count < |input| && |old(bytes)| <= frameSize ==> View().complete
    {
      var room := if |bytes| <= frameSize then frameSize - |bytes| else 0;
      count := if room <= |input| then room else |input|;
      bytes := bytes + input[..count];
    }
  }

  // --- cutting a byte sequence into frames ----------------------------------------------------

  /** Consecutive frames of exactly `size` bytes; the last may be shorter, none is empty. */
  function Cut(bytes: seq<byte>, size: nat): seq<seq<byte>>
    requires size > 0
    decreases |bytes|
  {
    if bytes == [] then []
    else if |bytes| <= size then [bytes]
    else [bytes[..size]] + Cut(bytes[size..], size)
  }

  /** Full frames followed by at most one more byte frame are a cut of their concatenation. */
  lemma {:induction false} FullFramesAreCut(frames: seq<seq<byte>>, rest: seq<byte>, size: nat)
    requires size > 0 && |rest| <= size
    requires forall k :: 0 <= k < |frames| ==> |frames[k]| == size
    ensures Cut(Flatten(frames) + rest, size) == frames + (if rest == [] then [] else [rest])
  {
    if frames == [] {
      assert Flatten(frames) + rest == rest;
    } else {
      var tail := Flatten(frames[1..]) + rest;
      FullFramesAreCut(frames[1..], rest, size);
      assert Flatten(frames) + rest == frames[0] + tail;
      CutCons(frames[0], tail, size);
      assert frames == [frames[0]] + frames[1..];
    }
  }

  lemma CutCons(frame: seq<byte>, tail: seq<byte>, size: nat)
    requires |frame| == size > 0
    ensures Cut(frame + tail, size) == [frame] + Cut(tail, size)
  {
    assert (frame + tail)[..size] == frame && (frame + tail)[size..] == tail;
    if tail == [] {
      assert frame + tail == frame;
    }
  }

  lemma {:induction false} CutIsWhole(bytes: seq<byte>, size: nat)
    requires size > 0
    ensures Flatten(Cut(bytes, size)) == bytes
    ensures forall k :: 0 <= k < |Cut(bytes, size)| ==> 0 < |Cut(bytes, size)[k]| <= size
    ensures forall k :: 0 <= k < |Cut(bytes, size)| - 1 ==> |Cut(bytes, size)[k]| == size
    decreases |bytes|
  {
    if 0 < |bytes| <= size {
      FlattenOne(bytes);
    } else if bytes != [] {
      CutIsWhole(bytes[size..], size);
      var tail := Cut(bytes[size..], size);
      assert Cut(bytes, size) == [bytes[..size]] + tail;
      assert Flatten(Cut(bytes, size)) == bytes[..size] + Flatten(tail);
    }
  }

  // --- what a writer fed with bytes has consumed -----------------------------------------------

  function Unfinished(w: Writer<seq<byte>>): seq<byte> {
    if w.partial.Some? then w.partial.value.value else []
  }

  /** A writer whose input so far was exactly `bytes`: while it accepts input, full frames and the
      partial one; once closing, frames that are the cut of `bytes`. */
  ghost predicate Took(w: Writer<seq<byte>>, size: nat, bytes: seq<byte>) {
    && size > 0
    && match w.phase
       case Accepting =>
         && (forall k :: 0 <= k < |w.fed| ==> |w.fed[k]| == size)
         && (w.partial.Some? ==> w.partial.value == PartialOf(Unfinished(w), size))
         && |Unfinished(w)| < size && bytes == Flatten(w.fed) + Unfinished(w)
       case Draining => w.partial.None? && w.fed == Cut(bytes, size)
       case Broken => Flatten(w.fed) <= bytes
  }

  /** Events of a writer that is fed bytes: frames start empty, fills take from some chunk. */
  ghost predicate ByteEvent(w: Writer<seq<byte>>, e: Event<seq<byte>>, size: nat) {
    && (e.Allocate? ==> e.partial == PartialOf([], size))
    && (e.Fill? && w.partial.Some? ==> exists chunk :: e.result == FillFrom(size, chunk, w.partial.value))
  }

  /** The bytes a fill appended to the partial frame. */
  function Consumed(w: Writer<seq<byte>>, e: Event<seq<byte>>): seq<byte> {
    if e.Fill? && e.result.FillDone? && |Unfinished(w)| <= |e.result.after.value|
    then e.result.after.value[|Unfinished(w)|..] else []
  }

  lemma FlattenSnoc(frames: seq<seq<byte>>, frame: seq<byte>)
    ensures Flatten(frames + [frame]) == Flatten(frames) + frame
  {
    FlattenAppend(frames, [frame]);
    FlattenOne(frame);
  }

  lemma FillTook(w: Writer<seq<byte>>, size: nat, bytes: seq<byte>, chunk: seq<byte>)
    requires Took(w, size, bytes) && w.phase.Accepting? && w.partial.Some? && w.fill < |w.files|
    ensures var r := FillFrom(size, chunk, w.partial.value);
            Took(FillStep(w, r), size, bytes + chunk[..r.output]) && Consumed(w, Event.Fill(r)) == chunk[..r.output]
  {
    var r := FillFrom(size, chunk, w.partial.value);
    FlattenSnoc(w.fed, r.after.value);
    assert Flatten(w.fed) + r.after.value == bytes + chunk[..r.output];
  }

  /** Closing finishes the partial frame, if it holds anything, as the last and shorter one. */
  lemma CloseTook(w: Writer<seq<byte>>, size: nat, bytes: seq<byte>)
    requires Took(w, size, bytes) && w.phase.Accepting? && (w.partial.Some? ==> w.fill < |w.files|)
    ensures Took(CloseStep(w), size, bytes)
  {
    FullFramesAreCut(w.fed, Unfinished(w), size);
  }

  lemma AllocateTook(w: Writer<seq<byte>>, size: nat, bytes: seq<byte>)
    requires Took(w, size, bytes) && w.phase.Accepting? && w.partial.None? && w.fill < |w.files|
    ensures Took(AllocateStep(w, PartialOf([], size)), size, bytes)
  {
  }

  lemma FailTook(w: Writer<seq<byte>>, size: nat, bytes: seq<byte>)
    requires Took(w, size, bytes)
    ensures Took(Fail(w), size, bytes)
  {
    if w.phase.Draining? {
      CutIsWhole(bytes, size);
    }
  }

  /** Every event of a byte-fed writer consumes exactly the bytes it reports. */
  lemma StepTook(w: Writer<seq<byte>>, e: Event<seq<byte>>, size: nat, bytes: seq<byte>)
    requires Inv(w) && Enabled(w, e) && Took(w, size, bytes) && ByteEvent(w, e, size)
    ensures Took(Step(w, e), size, bytes + Consumed(w, e))
  {
    hide Inv, Cut;
    assert bytes + [] == bytes;
    match e
    case Allocate(_) => AllocateTook(w, size, bytes);
    case BeginClose => CloseTook(w, size, bytes);
    case PollSlot(index, answer) => FailTook(w, size, bytes);
    case Fill(result) =>
      FillingPhase(w);
      var chunk :| result == FillFrom(size, chunk, w.partial.value);
      FillTook(w, size, bytes, chunk);
    case _ =>
  }

  lemma FillingPhase(w: Writer<seq<byte>>)
    requires Inv(w) && w.partial.Some?
    ensures w.phase.Accepting?
  {
  }

  ghost predicate ByteRun(w: Writer<seq<byte>>, events: seq<Event<seq<byte>>>, size: nat) {
    forall k :: 0 <= k < |events| && Run(w, events[..k]).Some? ==> ByteEvent(Run(w, events[..k]).value, events[k], size)
  }

  /** All bytes a run consumed, in order. */
  function AllConsumed(w: Writer<seq<byte>>, events: seq<Event<seq<byte>>>): seq<byte>
    decreases |events|
  {
    if events == [] then []
    else
      var last := |events| - 1;
      AllConsumed(w, events[..last])
      + (match Run(w, events[..last])
         case None => []
         case Some(v) => Consumed(v, events[last]))
  }

  lemma {:induction false} EveryByteRunTook(w: Writer<seq<byte>>, events: seq<Event<seq<byte>>>, size: nat)
    requires Inv(w) && Took(w, size, [])
    ensures ByteRun(w, events, size) && Run(w, events).Some? ==>
              Took(Run(w, events).value, size, AllConsumed(w, events))
    decreases |events|
  {
    hide Inv, Took;
    if events != [] && ByteRun(w, events, size) && Run(w, events).Some? {
      var last := |events| - 1;
      var before := events[..last];
      assert forall k :: 0 <= k < last ==> before[..k] == events[..k];
      EveryByteRunTook(w, before, size);
      EveryRunKeepsInv(w, before);
      StepTook(Run(w, before).value, events[last], size, AllConsumed(w, before));
    }
  }

  /** Main result. However the input was sliced, whenever calls returned without consuming, and
      whatever the backends, retries and budgets did: while input is accepted the consumed bytes
      are the finished frames, all full, followed by the partial one, and the destinations of a
      completed close are the segments of the cut of all consumed bytes. */
  lemma BytesArePreserved(w: Writer<seq<byte>>, events: seq<Event<seq<byte>>>, size: nat, v: Writer<seq<byte>>)
    requires Inv(w) && Took(w, size, []) && ByteRun(w, events, size) && Run(w, events) == Some(v)
    ensures var bytes := AllConsumed(w, events);
            && (v.phase.Accepting? ==>
                 && bytes == Flatten(v.fed) + Unfinished(v)
                 && |Unfinished(v)| < size && forall k :: 0 <= k < |v.fed| ==> |v.fed[k]| == size)
            && (v.phase.Draining? && v.files == [] ==>
                 Outputs(v.popped) == Segments(Cut(bytes, size), Capacities(v.admitted)))
  {
    EveryByteRunTook(w, events, size);
    if v.phase.Draining? && v.files == [] {
      ClosedRunIsSegmentation(w, events, v);
    }
  }

  /** A run that feeds a writer bytes and closes it completely. */
  ghost predicate Completed(w: Writer<seq<byte>>, events: seq<Event<seq<byte>>>, size: nat, v: Writer<seq<byte>>) {
    && Inv(w) && Took(w, size, []) && ByteRun(w, events, size) && Run(w, events) == Some(v)
    && v.phase.Draining? && v.files == []
  }

  /** Chunking independence: two completed runs that consumed the same bytes, in whatever slices,
      with whatever schedulers, into destinations of the same capacities, wrote the same files. */
  lemma OnlyTheBytesMatter(w1: Writer<seq<byte>>, run1: seq<Event<seq<byte>>>, v1: Writer<seq<byte>>,
                           w2: Writer<seq<byte>>, run2: seq<Event<seq<byte>>>, v2: Writer<seq<byte>>, size: nat)
    ensures Completed(w1, run1, size, v1) && Completed(w2, run2, size, v2)
            && AllConsumed(w1, run1) == AllConsumed(w2, run2) && Capacities(v1.admitted) == Capacities(v2.admitted) ==>
              Outputs(v1.popped) == Outputs(v2.popped)
  {
    if Completed(w1, run1, size, v1) && Completed(w2, run2, size, v2) {
      BytesArePreserved(w1, run1, size, v1);
      BytesArePreserved(w2, run2, size, v2);
    }
  }
}
