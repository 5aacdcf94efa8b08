/** A stored file that accepts and delivers whole frames although the operating system moves fewer
    bytes at a time: `offset` is how far the frame in progress has come when a poll must wait. */
module SegmentFiles {
  import opened Segmentation
  import opened ByteFrames

  /** Bytes per frame. */
  const BLOCK: nat := 65536

  datatype IoPoll = Pending | Ready | Failed

  datatype ReadPoll = ReadPending | ReadDone | ReadEnd | ReadFailed(short: bool)

  /** What a write call does: nothing yet, part of its bytes, or an error. */
  datatype WriteAnswer = WritePending | Wrote(count: nat) | WriteError

  datatype ReadAnswer = NothingYet | Got(count: nat) | ReadError

  method AskPoll() returns (answer: IoPoll)
  {
    answer := *;
  }

  method AskWrite(size: nat) returns (answer: WriteAnswer)
    ensures answer.Wrote? ==> answer.count <= size
  {
    answer := *;
    if answer.Wrote? && answer.count > size {
      answer := Wrote(size);
    }
  }

  /** A read call delivers at least one byte unless the file has ended. */
  method AskRead(size: nat) returns (answer: ReadAnswer)
    ensures answer.Got? ==> answer.count <= size && (size > 0 ==> answer.count > 0)
  {
    answer := *;
    if answer.Got? && (answer.count > size || answer.count < 1) {
      answer := Got(size);
    }
  }

  /** A segment as a value: the open operation, the handle with its place in the frame in progress,
      the file behind the handle, and the frames accepted or delivered by the current attempt. */
  datatype Handle = Handle(opening: bool, open: bool, offset: nat, data: seq<byte>, position: nat,
                           log: seq<seq<byte>>, received: nat)

  const NO_HANDLE := Handle(false, false, 0, [], 0, [], 0)

  /** An open operation in progress has dropped the old handle. */
  predicate Sound(h: Handle) {
    h.opening ==> !h.open && h.offset == 0
  }

  /** Opening for writing empties the file; opening for reading starts at the beginning of what is
      stored. A new attempt forgets the old handle and the frame in progress. */
  predicate OpenPolled(h: Handle, writing: bool, stored: seq<byte>, r: IoPoll, t: Handle) {
    t == match r
         case Pending => h.(opening := true, open := false, offset := 0)
         case Ready => Handle(false, true, 0, if writing then [] else stored, 0, [], 0)
         case Failed => h.(opening := false, open := false, offset := 0)
  }

  /** Some bytes of the frame, from `offset` on, were appended: all of the rest on success. */
  predicate WritePolled(h: Handle, frame: seq<byte>, r: IoPoll, t: Handle) {
    if !h.open then r == Failed && t == h
    else
      && h.offset <= |frame| && h.data <= t.data
      && var n := h.offset + |t.data| - |h.data|;
         && n <= |frame| && t.data == h.data + frame[h.offset..n]
         && (r.Ready? <==> n == |frame|)
         && t == if r.Ready? then h.(offset := 0, data := t.data, log := h.log + [frame])
                 else h.(offset := n, data := t.data)
  }

  predicate ClosePolled(h: Handle, r: IoPoll, t: Handle) {
    t == h && (r.Ready? ==> h.open) && (!h.open ==> r.Failed?)
  }

  /** Some bytes of the file were put behind those already in the buffer: a whole block on success. */
  predicate ReadPolled(h: Handle, frame: seq<byte>, r: ReadPoll, out: seq<byte>, t: Handle) {
    if !h.open then r == ReadFailed(false) && out == frame && t == h
    else
      && h.offset <= |frame| && h.position <= t.position <= |h.data|
      && var n := h.offset + t.position - h.position;
         && n <= BLOCK == |out| && out[..n] == frame[..h.offset] + h.data[h.position..t.position]
         && (r.ReadDone? <==> n == BLOCK)
         && (r.ReadEnd? ==> n == 0 && t.position == |h.data|)
         && (r == ReadFailed(true) ==> n > 0 && t.position == |h.data|)
         && t == if r.ReadDone? then h.(offset := 0, position := t.position, received := h.received + 1)
                 else h.(offset := n, position := t.position)
  }

  /** The file holds the accepted frames and the first `offset` bytes of `frame`. */
  predicate Writing(h: Handle, frame: seq<byte>) {
    h.offset <= |frame| && (h.offset > 0 ==> h.offset < |frame|) && h.data == Flatten(h.log) + frame[..h.offset]
  }

  /** No frame is in progress. */
  predicate Between(h: Handle) {
    h.offset == 0 && h.data == Flatten(h.log)
  }

  lemma BetweenFrames(h: Handle, frame: seq<byte>)
    ensures Between(h) ==> Writing(h, frame)
    ensures Writing(h, []) ==> Between(h)
  {
    assert frame[..0] == [];
    assert Flatten(h.log) + [] == Flatten(h.log);
  }

  /** Whole frames have been delivered, and the first `offset` bytes of the next one are in `frame`. */
  predicate Reading(h: Handle, frame: seq<byte>) {
    && h.position == h.received * BLOCK + h.offset <= |h.data| && h.offset < BLOCK
    && (h.offset > 0 ==> |frame| == BLOCK && frame[..h.offset] == h.data[h.received * BLOCK..h.position])
  }

  /** A write loop that stopped with `n` bytes of the frame written. */
  lemma WriteStopped(h: Handle, frame: seq<byte>, n: nat, r: IoPoll)
    requires h.open && h.offset <= n <= |frame| && (r.Ready? <==> n == |frame|)
    ensures var data := h.data + frame[h.offset..n];
            WritePolled(h, frame, r, if r.Ready? then h.(offset := 0, data := data, log := h.log + [frame])
                                     else h.(offset := n, data := data))
  {
  }

  /** `out` holds what was in the buffer before and the bytes of the file up to `position`. */
  predicate ReadSoFar(h: Handle, frame: seq<byte>, position: nat, out: seq<byte>) {
    && |out| == BLOCK && h.offset <= |frame| && h.position <= position <= |h.data|
    && var n := h.offset + position - h.position;
       n <= BLOCK && out[..n] == frame[..h.offset] + h.data[h.position..position]
  }

  /** A read loop that stopped at `position` in the file. */
  lemma ReadStopped(h: Handle, frame: seq<byte>, position: nat, r: ReadPoll, out: seq<byte>)
    requires h.open && ReadSoFar(h, frame, position, out)
    requires var n := h.offset + position - h.position;
             && (r.ReadDone? <==> n == BLOCK)
             && (r.ReadEnd? || r == ReadFailed(true) ==> position == |h.data| && (n == 0 <==> r.ReadEnd?))
    ensures ReadPolled(h, frame, r, out,
                       if r.ReadDone? then h.(offset := 0, position := position, received := h.received + 1)
                       else h.(offset := h.offset + position - h.position, position := position))
  {
  }

  lemma PartGrows(before: seq<byte>, frame: seq<byte>, m: nat, n: nat)
    requires m <= n <= |frame|
    ensures before + frame[..m] + frame[m..n] == before + frame[..n] && frame[..|frame|] == frame
  {
    assert frame[..m] + frame[m..n] == frame[..n];
  }

  /** A write that had to wait left the file with more of the frame; a completed one with all of it. */
  lemma WriteOutcome(h: Handle, frame: seq<byte>, r: IoPoll, t: Handle)
    requires h.open && Writing(h, frame) && WritePolled(h, frame, r, t)
    ensures r.Ready? ==> t.log == h.log + [frame] && Between(t)
    ensures !r.Ready? ==> t.log == h.log && Writing(t, frame) && t.offset < |frame|
  {
    var n := h.offset + |t.data| - |h.data|;
    PartGrows(Flatten(h.log), frame, h.offset, n);
    if r.Ready? {
      FlattenSnoc(h.log, frame);
    }
  }

  /** A read delivers exactly the next block; it ends only where the file does. */
  lemma BlockOutcome(h: Handle, frame: seq<byte>, r: ReadPoll, out: seq<byte>, t: Handle)
    requires h.open && Reading(h, frame) && ReadPolled(h, frame, r, out, t)
    ensures r.ReadDone? ==>
              && (h.received + 1) * BLOCK <= |h.data| && out == h.data[h.received * BLOCK..(h.received + 1) * BLOCK]
              && forall next :: Reading(t, next)
    ensures r.ReadPending? ==> Reading(t, out)
    ensures r.ReadEnd? ==> h.received * BLOCK == |h.data|
    ensures r == ReadFailed(true) ==> h.received * BLOCK < |h.data| < (h.received + 1) * BLOCK
  {
    var start := h.received * BLOCK;
    var n := h.offset + t.position - h.position;
    if h.offset == 0 {
      assert frame[..0] == [] && out[..n] == h.data[start..t.position];
    } else {
      SliceGrows(h.data, start, h.position, t.position);
    }
    if r.ReadDone? {
      assert out[..n] == out;
    }
  }

  lemma SliceGrows(data: seq<byte>, start: nat, middle: nat, end: nat)
    requires start <= middle <= end <= |data|
    ensures data[start..middle] + data[middle..end] == data[start..end]
  {
  }

  class Segment {
    const name: nat
    const frames: nat
    var opening: bool
    var open: bool
    var offset: nat
    var delayed: bool
    /** The file behind the handle, and the place of the next read in it. */
    var data: seq<byte>
    var position: nat
    ghost var log: seq<seq<byte>>
    ghost var received: nat

    ghost function View(): Handle
      reads this
    {
      Handle(opening, open, offset, data, position, log, received)
    }

    constructor (name: nat, frames: nat)
      ensures View() == NO_HANDLE && this.name == name && this.frames == frames
    {
      this.name := name;
      this.frames := frames;
      opening, open, offset, delayed := false, false, 0, false;
      data, position, log, received := [], 0, [], 0;
    }

    /** Open for writing, or for reading what is `stored` under the path. */
    method PollOpenFile(writing: bool, stored: seq<byte>) returns (r: IoPoll)
      requires Sound(View())
      modifies this
      ensures Sound(View()) && OpenPolled(old(View()), writing, stored, r, View())
      ensures r.Ready? && writing ==> Between(View()) && log == []
      ensures r.Ready? && !writing ==> data == stored && forall frame :: Reading(View(), frame)
    {
      if !opening {
        open := false;
        offset := 0;
        delayed := false;
        opening := true;
      }
      r := AskPoll();
      match r {
        case Pending =>
        case Ready =>
          opening := false;
          open := true;
          data := if writing then [] else stored;
          position := 0;
          log, received := [], 0;
        case Failed =>
          opening := false;
      }
    }

    /** Write one whole frame, resuming where the last call for it had to wait. */
    method PollWrite(frame: seq<byte>) returns (r: IoPoll)
      requires Sound(View()) && (open ==> Writing(View(), frame))
      modifies this`offset, this`data, this`log
      ensures Sound(View()) && WritePolled(old(View()), frame, r, View())
      ensures open && r.Ready? ==> log == old(log) + [frame] && Between(View())
      ensures open && !r.Ready? ==> log == old(log) && Writing(View(), frame)
    {
      if !open {
        return Failed;
      }
      ghost var h := View();
      r := WriteFrame(frame);
      if r.Ready? {
        log := log + [frame];
      }
      WriteOutcome(h, frame, r, View());
    }

    method WriteFrame(frame: seq<byte>) returns (r: IoPoll)
      requires Sound(View()) && open && offset <= |frame|
      modifies this`offset, this`data
      ensures Sound(View())
      ensures WritePolled(old(View()), frame, r, if r.Ready? then View().(log := log + [frame]) else View())
    {
      hide WritePolled;
      ghost var h := View();
      r := Ready;
      while offset < |frame| && r.Ready?
        invariant Sound(View()) && open && h.offset <= offset <= |frame| && (!r.Ready? ==> offset < |frame|)
        invariant View() == h.(offset := offset, data := h.data + frame[h.offset..offset])
        decreases |frame| - offset, r.Ready?
      {
        var bytes := frame[offset..];
        var answer := AskWrite(|bytes|);
        match answer {
          case WritePending =>
            r := Pending;
          case WriteError =>
            r := Failed;
          case Wrote(count) =>
            if count == 0 {
              r := Failed;
            } else {
              SliceGrows(frame, h.offset, offset, offset + count);
              assert bytes[..count] == frame[offset..offset + count];
              data := data + bytes[..count];
              offset := offset + count;
            }
        }
      }
      WriteStopped(h, frame, offset, r);
      if r.Ready? {
        offset := 0;
      }
    }

    /** Flush and wait; the file then holds exactly the frames of this attempt. */
    method PollClose() returns (r: IoPoll)
      requires Sound(View()) && (open ==> Between(View()))
      modifies this`delayed
      ensures ClosePolled(old(View()), r, View()) && (r.Ready? ==> data == Flatten(log))
    {
      if !open {
        return Failed;
      }
      r := AskPoll();
      if !r.Ready? {
        return r;
      }
      delayed := true;
      var elapsed: bool := *;
      r := if elapsed then Ready else Pending;
    }

    /** Read one whole frame into `frame`, resuming where the last call had to wait. It ends with
        `ReadEnd` exactly at the end of the file, and `ReadFailed(true)` inside an incomplete frame. */
    method PollRead(frame: seq<byte>) returns (r: ReadPoll, out: seq<byte>)
      requires Sound(View()) && (open ==> Reading(View(), frame))
      modifies this`offset, this`position, this`received
      ensures Sound(View()) && ReadPolled(old(View()), frame, r, out, View())
      ensures open && r.ReadDone? ==> out == data[old(received) * BLOCK..received * BLOCK]
      ensures open && r.ReadPending? ==> Reading(View(), out)
      ensures open && r.ReadEnd? ==> old(received) * BLOCK == |data|
      ensures r == ReadFailed(true) ==> old(received) * BLOCK < |data| < (old(received) + 1) * BLOCK
    {
      if !open {
        return ReadFailed(false), frame;
      }
      ghost var h := View();
      r, out := FillFrame(frame);
      if r.ReadDone? {
        received := received + 1;
      }
      BlockOutcome(h, frame, r, out, View());
    }

    method FillFrame(frame: seq<byte>) returns (r: ReadPoll, out: seq<byte>)
      requires Sound(View()) && open && offset < BLOCK && position <= |data| && (offset > 0 ==> |frame| == BLOCK)
      modifies this`offset, this`position
      ensures Sound(View())
      ensures ReadPolled(old(View()), frame, r, out, if r.ReadDone? then View().(received := received + 1) else View())
    {
      hide Overwritten, Resized, ReadPolled, ReadSoFar;
      ghost var h := View();
      out := frame;
      if offset == 0 && |out| != BLOCK {
        out := Resized(out, BLOCK);
      }
      r := ReadDone;
      NothingRead(h, frame, out);
      while offset < BLOCK && r.ReadDone?
        invariant Sound(View()) && |out| == BLOCK && offset <= BLOCK && (!r.ReadDone? ==> offset < BLOCK)
        invariant h.position <= position <= |data| && offset == h.offset + position - h.position
        invariant View() == h.(offset := offset, position := position)
        invariant ReadSoFar(h, frame, position, out)
        invariant r.ReadEnd? || r == ReadFailed(true) ==> position == |data| && (offset == 0 <==> r.ReadEnd?)
        decreases BLOCK - offset, r.ReadDone?
      {
        var room := BLOCK - offset;
        var rest := |data| - position;
        var answer := AskRead(if room <= rest then room else rest);
        match answer {
          case NothingYet =>
            r := ReadPending;
          case ReadError =>
            r := ReadFailed(false);
          case Got(count) =>
            if count == 0 {
              r := if offset == 0 then ReadEnd else ReadFailed(true);
            } else {
              FrameGrows(h, frame, position, out, count);
              out := Overwritten(out, offset, data[position..position + count]);
              position := position + count;
              offset := offset + count;
            }
        }
      }
      ReadStopped(h, frame, position, r, out);
      if r.ReadDone? {
        offset := 0;
      }
    }
  }

  lemma NothingRead(h: Handle, frame: seq<byte>, out: seq<byte>)
    requires h.offset <= |frame| && h.position <= |h.data| && (out == frame || h.offset == 0)
    requires |out| == BLOCK && h.offset < BLOCK
    ensures ReadSoFar(h, frame, h.position, out)
  {
    assert h.data[h.position..h.position] == [];
    assert frame[..h.offset] + [] == frame[..h.offset] == out[..h.offset];
  }

  /** The next bytes of the file, put behind those already read, extend the part of the frame. */
  lemma FrameGrows(h: Handle, frame: seq<byte>, position: nat, out: seq<byte>, count: nat)
    requires ReadSoFar(h, frame, position, out)
    requires var n := h.offset + position - h.position; n + count <= BLOCK && position + count <= |h.data|
    ensures var n := h.offset + position - h.position;
            ReadSoFar(h, frame, position + count, Overwritten(out, n, h.data[position..position + count]))
  {
    SliceGrows(h.data, h.position, position, position + count);
    ConcatAssociates(frame[..h.offset], h.data[h.position..position], h.data[position..position + count]);
  }

  /** `Vec::resize` with zeros. */
  function Resized(bytes: seq<byte>, size: nat): (r: seq<byte>)
    ensures |r| == size
  {
    if size <= |bytes| then bytes[..size] else bytes + seq(size - |bytes|, _ => 0)
  }

  function Overwritten(bytes: seq<byte>, at: nat, part: seq<byte>): (r: seq<byte>)
    requires at + |part| <= |bytes|
    ensures |r| == |bytes| && r[..at + |part|] == bytes[..at] + part
  {
    bytes[..at] + part + bytes[at + |part|..]
  }

  // --- stored files as sources ------------------------------------------------------------------

  /** Whole frames: what a file must hold to be read back. */
  predicate WholeFrames(data: seq<byte>) {
    data != [] && |data| % BLOCK == 0
  }

  /** The `k`-th frame of a stored file is its `k`-th block. */
  lemma {:induction false} CutAt(data: seq<byte>, k: nat)
    requires |data| % BLOCK == 0 && (k + 1) * BLOCK <= |data|
    ensures k < |Cut(data, BLOCK)| && Cut(data, BLOCK)[k] == data[k * BLOCK..(k + 1) * BLOCK]
    decreases k
  {
    if |data| > BLOCK && k > 0 {
      var rest := data[BLOCK..];
      CutAt(rest, k - 1);
      assert Cut(data, BLOCK)[k] == Cut(rest, BLOCK)[k - 1];
      assert rest[(k - 1) * BLOCK..k * BLOCK] == data[k * BLOCK..(k + 1) * BLOCK];
    }
  }

  lemma {:induction false} CutCount(data: seq<byte>)
    requires |data| % BLOCK == 0
    ensures |Cut(data, BLOCK)| == |data| / BLOCK
    decreases |data|
  {
    if |data| > BLOCK {
      CutCount(data[BLOCK..]);
    }
  }

  /** Reading a segment of whole frames delivers the frames a sequential reader expects of it, and
      the file never ends before as many as it declares have been received. */
  lemma SegmentIsSource(data: seq<byte>, received: nat)
    requires WholeFrames(data)
    ensures |Cut(data, BLOCK)| == |data| / BLOCK > 0
    ensures received < |Cut(data, BLOCK)| ==>
              && (received + 1) * BLOCK <= |data|
              && Cut(data, BLOCK)[received] == data[received * BLOCK..(received + 1) * BLOCK]
    ensures received * BLOCK == |data| ==> received == |Cut(data, BLOCK)|
  {
    CutCount(data);
    if received < |Cut(data, BLOCK)| {
      CutAt(data, received);
    }
  }
}
