/** The read scheduler as a state machine over values, with unbounded logical positions. Files fill
    a contiguous window of cells concurrently; frames leave in order. `admitted`, `outputs`,
    `created`, `widest`, `failed` and `delivered` are histories. */
module Readers {
  import opened Naturals
  import opened Segmentation

  /** A source and the frames it holds; it declares exactly that many. */
  datatype Source<T> = Source(name: nat, content: seq<T>)

  datatype ReadState = Opening | Reading

  datatype Slot<T> = Slot(file: Source<T>, start: nat, count: nat, received: nat, retries: nat, state: ReadState,
      blocked: bool)

  datatype Cell<T> = Cell(frame: Option<T>, complete: bool)

  datatype ReadError = Backend | UnexpectedEof | InvalidFramePosition

  /** A backend's answer; while pending it may have prepared the buffer in part. */
  datatype Answer<T> = Pending(prepared: T) | Done | Failed | Eof

  datatype Window = Window(target: nat, openAhead: nat, maxActive: nat)

  datatype Reader<T> = Reader(
    maxRetries: nat, total: nat, modulus: nat, window: Window,
    files: seq<Slot<T>>, frames: seq<Cell<T>>, recycled: seq<T>, emitted: nat, discovered: nat,
    closed: bool, terminated: bool, error: Option<ReadError>, capacity: nat,
    admitted: seq<Source<T>>, outputs: seq<T>, created: nat, widest: nat, failed: bool, delivered: nat)

  datatype Event<T> =
    | PushFile(file: Source<T>)
    | CloseFiles
    | SetWindow(window: Window)
    | GrowGrant(capacity: nat)
    | Unblock
    | Authorize
    | PollFile(index: nat, answer: Answer<T>, made: T)
    | Emit(given: T)
    | Finish
    | TakeError

  predicate ValidWindow(window: Window) {
    window.target > 0 && window.maxActive > 0
  }

  function Horizon(window: Window): nat {
    Max(window.target, window.openAhead)
  }

  function Init<T>(maxRetries: nat, total: nat, modulus: nat, window: Window): Reader<T> {
    Reader(maxRetries, total, modulus, window, [], [], [], 0, 0, false, false, None, 0,
           [], [], 0, window.target, false, 0)
  }

  // --- steps ---------------------------------------------------------------------------------

  /** Admission: room in the window and the horizon, and a length every live distance can hold. */
  predicate Accepts<T>(r: Reader<T>, file: Source<T>) {
    && !r.closed && !r.terminated
    && |r.files| < r.window.maxActive && Minus(r.discovered, r.emitted) < Horizon(r.window)
    && 0 < |file.content| && Minus(r.discovered, r.emitted) + |file.content| < r.modulus
  }

  function PushStep<T>(r: Reader<T>, file: Source<T>): Reader<T> {
    r.(files := r.files + [Slot(file, r.discovered, |file.content|, 0, 0, Opening, false)],
       discovered := r.discovered + |file.content|, admitted := r.admitted + [file])
  }

  function WindowStep<T>(r: Reader<T>, window: Window): Reader<T> {
    r.(window := window, capacity := Min(r.capacity, Max(window.target, |r.frames|)),
       widest := Max(r.widest, window.target))
  }

  function Empty<T>(n: nat): seq<Cell<T>> {
    seq(n, _ => Cell(None, false))
  }

  /** Cells that may be added to the window. */
  function Extra<T>(r: Reader<T>): nat {
    var available := Minus(Min(r.capacity, r.window.target), |r.frames|);
    Min(available, Minus(Minus(r.discovered, r.emitted), |r.frames|))
  }

  function AuthorizeStep<T>(r: Reader<T>): Reader<T> {
    r.(frames := r.frames + Empty(Extra(r)))
  }

  function Unblocked<T>(files: seq<Slot<T>>): seq<Slot<T>> {
    seq(|files|, i requires 0 <= i < |files| => files[i].(blocked := false))
  }

  function Fail<T>(r: Reader<T>, error: ReadError): Reader<T> {
    r.(files := [], frames := [], recycled := [], capacity := 0, terminated := true, error := Some(error),
       failed := true)
  }

  function Offset<T>(r: Reader<T>, s: Slot<T>): int {
    s.start + s.received - r.emitted
  }

  predicate InWindow<T>(r: Reader<T>, s: Slot<T>) {
    0 <= Offset(r, s) < |r.frames|
  }

  /** Whether polling file `index` asks its backend for something. */
  predicate Asks<T>(r: Reader<T>, index: nat)
    requires index < |r.files|
  {
    var s := r.files[index];
    && !s.blocked
    && (s.state.Opening? || (s.received != s.count && InWindow(r, s) && !r.frames[Offset(r, s)].complete))
  }

  /** The buffer a file reads into: the one already in its cell, a recycled one, or a new one. */
  function WithBuffer<T>(r: Reader<T>, k: nat, made: T): Reader<T>
    requires k < |r.frames|
  {
    if r.frames[k].frame.Some? then r
    else if r.recycled != [] then
      var last := |r.recycled| - 1;
      r.(frames := r.frames[k := r.frames[k].(frame := Some(r.recycled[last]))], recycled := r.recycled[..last])
    else
      r.(frames := r.frames[k := r.frames[k].(frame := Some(made))], created := r.created + 1)
  }

  function SetSlot<T>(r: Reader<T>, index: nat, s: Slot<T>): Reader<T>
    requires index < |r.files|
  {
    r.(files := r.files[index := s])
  }

  /** One poll of one file: the new state and whether it progressed. */
  function PollStep<T>(r: Reader<T>, index: nat, answer: Answer<T>, made: T): (Reader<T>, bool)
    requires index < |r.files|
  {
    var s := r.files[index];
    if s.blocked then (r, false)
    else if s.state.Opening? then PollOpen(r, index, answer)
    else if s.received == s.count then (SetSlot(r, index, s.(blocked := true)), false)
    else if !InWindow(r, s) then (r, false)
    else if r.frames[Offset(r, s)].complete then (Fail(r, InvalidFramePosition), false)
    else PollRead(r, index, answer, made)
  }

  function PollOpen<T>(r: Reader<T>, index: nat, answer: Answer<T>): (Reader<T>, bool)
    requires index < |r.files|
  {
    var s := r.files[index];
    match answer
    case Pending(_) => (SetSlot(r, index, s.(blocked := true)), false)
    case Failed =>
      if s.retries == r.maxRetries then (Fail(r, Backend), false)
      else (SetSlot(r, index, s.(retries := s.retries + 1)), true)
    case _ => (SetSlot(r, index, s.(state := Reading)), true)
  }

  function PollRead<T>(r: Reader<T>, index: nat, answer: Answer<T>, made: T): (Reader<T>, bool)
    requires index < |r.files| && InWindow(r, r.files[index])
  {
    var s := r.files[index];
    var k := Offset(r, s);
    var u := WithBuffer(r, k, made);
    match answer
    case Pending(prepared) => (Read(u, index, s.(blocked := true), k, Cell(Some(prepared), false)), false)
    case Failed => (Fail(u, Backend), false)
    case Eof => (Fail(u, UnexpectedEof), false)
    case Done =>
      if s.received < |s.file.content| then
        (Read(u, index, s.(received := s.received + 1, blocked := s.received + 1 == s.count),
              k, Cell(Some(s.file.content[s.received]), true)), true)
      else (r, false)
  }

  function Read<T>(r: Reader<T>, index: nat, s: Slot<T>, k: nat, c: Cell<T>): Reader<T>
    requires index < |r.files| && k < |r.frames|
  {
    r.(files := r.files[index := s], frames := r.frames[k := c])
  }

  /** Drop the files whose last frame has been handed out. */
  function Retire<T>(r: Reader<T>): Reader<T>
    decreases |r.files|
  {
    if r.files != [] && r.emitted == r.files[0].start + r.files[0].count
    then Retire(r.(files := r.files[1..]))
    else r
  }

  /** Whether the grant has grown far enough past what is needed to be worth returning. */
  predicate Excessive<T>(r: Reader<T>) {
    var keep := Max(r.window.target, |r.frames|);
    var excess := Minus(r.capacity, keep);
    excess >= 32 || (excess > 0 && keep == r.window.target)
  }

  function Adjust<T>(r: Reader<T>): Reader<T> {
    if Excessive(r) then r.(capacity := Min(r.capacity, Max(r.window.target, |r.frames|))) else r
  }

  /** Hand out the first frame in exchange for the caller's buffer, then retire and adjust. */
  function EmitStep<T>(r: Reader<T>, given: T): Reader<T>
    requires r.frames != [] && r.frames[0].frame.Some?
  {
    Adjust(Retire(Popped(r, given)))
  }

  /** The state between handing out a frame and retiring the file it ended. */
  function Popped<T>(r: Reader<T>, given: T): Reader<T>
    requires r.frames != [] && r.frames[0].frame.Some?
  {
    r.(frames := r.frames[1..], emitted := r.emitted + 1, recycled := r.recycled + [given],
       outputs := r.outputs + [r.frames[0].frame.value])
  }

  predicate Enabled<T>(r: Reader<T>, e: Event<T>) {
    match e
    case PushFile(file) => Accepts(r, file)
    case CloseFiles => true
    case SetWindow(window) => ValidWindow(window)
    case GrowGrant(capacity) =>
      !r.terminated && r.files != [] && r.capacity <= capacity <= Min(r.window.target, r.total)
    case Unblock => true
    case Authorize => !r.terminated
    case PollFile(index, answer, _) => !r.terminated && index < |r.files| && (!answer.Done? ==> Asks(r, index))
    case Emit(_) => !r.terminated && r.frames != [] && r.frames[0].complete && r.frames[0].frame.Some?
    case Finish => !r.terminated && r.files == []
    case TakeError => r.error.Some?
  }

  function Step<T>(r: Reader<T>, e: Event<T>): Reader<T>
    requires Enabled(r, e)
  {
    match e
    case PushFile(file) => PushStep(r, file)
    case CloseFiles => r.(closed := true)
    case SetWindow(window) => WindowStep(r, window)
    case GrowGrant(capacity) => r.(capacity := capacity)
    case Unblock => r.(files := Unblocked(r.files))
    case Authorize => AuthorizeStep(r)
    case PollFile(index, answer, made) => PollStep(r, index, answer, made).0
    case Emit(given) => EmitStep(r, given)
    case Finish => r.(capacity := 0, terminated := r.closed)
    case TakeError => r.(error := None, delivered := r.delivered + 1)
  }

  function Run<T>(r: Reader<T>, events: seq<Event<T>>): Option<Reader<T>>
    decreases |events|
  {
    if events == [] then Some(r)
    else
      var last := |events| - 1;
      match Run(r, events[..last])
      case None => None
      case Some(q) => if Enabled(q, events[last]) then Some(Step(q, events[last])) else None
  }

  lemma RunAppend<T>(r: Reader<T>, events: seq<Event<T>>, e: Event<T>)
    requires Run(r, events).Some? && Enabled(Run(r, events).value, e)
    ensures Run(r, events + [e]) == Some(Step(Run(r, events).value, e))
  {
    assert (events + [e])[..|events|] == events;
  }

  // --- invariant -----------------------------------------------------------------------------

  function Contents<T>(files: seq<Source<T>>): seq<seq<T>> {
    seq(|files|, k requires 0 <= k < |files| => files[k].content)
  }

  /** What a sequential reader of the admitted files would deliver. */
  function Sequence<T>(r: Reader<T>): seq<T> {
    Flatten(Contents(r.admitted))
  }

  /** The cell of position `p` of slot `s`: complete exactly when the slot has received it, then
      holding the file's frame; a buffer exists only up to the position being read. */
  ghost predicate CellOk<T>(c: Cell<T>, s: Slot<T>, p: nat)
    requires s.start <= p < s.start + s.count == s.start + |s.file.content|
  {
    && (c.complete <==> p < s.start + s.received)
    && (c.complete ==> c.frame == Some(s.file.content[p - s.start]))
    && (p > s.start + s.received ==> c.frame.None?)
  }

  ghost predicate SlotOk<T>(r: Reader<T>, s: Slot<T>) {
    && 0 < s.count == |s.file.content|
    && s.start + s.count <= r.discovered
    && s.received <= s.count && s.retries <= r.maxRetries
    && (s.state.Opening? ==> s.received == 0)
    && r.emitted <= s.start + s.received <= Max(s.start, r.emitted + |r.frames|)
  }

  ghost predicate SlotCells<T>(r: Reader<T>, s: Slot<T>)
    requires SlotOk(r, s)
  {
    forall k :: 0 <= k < |r.frames| && s.start <= r.emitted + k < s.start + s.count ==>
      CellOk(r.frames[k], s, r.emitted + k)
  }

  ghost predicate SlotContent<T>(r: Reader<T>, s: Slot<T>)
    requires SlotOk(r, s)
  {
    s.start + s.count <= |Sequence(r)| && Sequence(r)[s.start..s.start + s.count] == s.file.content
  }

  ghost predicate FileOk<T>(r: Reader<T>, i: nat)
    requires i < |r.files|
  {
    var s := r.files[i];
    SlotOk(r, s) && SlotCells(r, s) && SlotContent(r, s)
  }

  /** The files lie end to end from the one containing the next position up to the last known. */
  ghost predicate Chain<T>(r: Reader<T>) {
    && (forall i :: 0 < i < |r.files| ==> r.files[i].start == r.files[i - 1].start + r.files[i - 1].count)
    && (if r.files == [] then r.emitted == r.discovered
        else
          && r.files[0].start <= r.emitted < r.files[0].start + r.files[0].count
          && r.files[|r.files| - 1].start + r.files[|r.files| - 1].count == r.discovered)
  }

  ghost predicate Layout<T>(r: Reader<T>) {
    && Chain(r)
    && (forall i :: 0 <= i < |r.files| ==> FileOk(r, i))
    && r.emitted <= r.discovered == |Sequence(r)|
    && r.discovered - r.emitted < r.modulus
    && |r.frames| <= r.discovered - r.emitted
    && r.outputs == Sequence(r)[..r.emitted]
  }

  /** Grants follow the window with a hysteresis of less than 32 frames. */
  ghost predicate Grant<T>(r: Reader<T>) {
    && |r.frames| <= r.capacity <= r.total
    && r.capacity <= Max(r.window.target, |r.frames|) + 31
    && |r.frames| <= r.widest && r.window.target <= r.widest
  }

  function Buffers<T>(frames: seq<Cell<T>>): nat {
    if frames == [] then 0 else (if frames[0].frame.Some? then 1 else 0) + Buffers(frames[1..])
  }

  /** Every buffer ever made is in the window or waiting for reuse. */
  ghost predicate Recycling<T>(r: Reader<T>) {
    && |r.recycled| + Buffers(r.frames) == r.created
    && r.created <= r.total && r.created <= r.widest
  }

  ghost predicate Emptied<T>(r: Reader<T>) {
    && r.terminated && r.files == [] && r.frames == [] && r.recycled == [] && r.capacity == 0
    && r.outputs <= Sequence(r)
  }

  ghost predicate Inv<T>(r: Reader<T>) {
    && r.total > 0 && ValidWindow(r.window)
    && r.delivered + (if r.error.Some? then 1 else 0) == (if r.failed then 1 else 0)
    && (if r.failed then Emptied(r)
        else Layout(r) && Grant(r) && Recycling(r) && (r.terminated ==> r.closed && r.files == [] && r.capacity == 0))
  }

  // --- polling keeps the invariant ---------------------------------------------------------------

  lemma {:induction false} ChainOrder<T>(r: Reader<T>, i: nat, j: nat)
    requires Chain(r) && i < j < |r.files|
    ensures r.files[i].start + r.files[i].count <= r.files[j].start
    decreases j - i
  {
    if i + 1 < j {
      ChainOrder(r, i, j - 1);
    }
  }

  /** What a poll may do to slot `i` and to the one cell it reads into. */
  ghost predicate LocalUpdate<T>(r: Reader<T>, q: Reader<T>, i: nat) {
    && i < |r.files| == |q.files| && q.files == r.files[i := q.files[i]]
    && |q.frames| == |r.frames|
    && q.emitted == r.emitted && q.discovered == r.discovered && q.admitted == r.admitted && q.outputs == r.outputs
    && q.modulus == r.modulus && q.maxRetries == r.maxRetries
    && var s, t := r.files[i], q.files[i];
       && t.file == s.file && t.start == s.start && t.count == s.count
       && (forall k :: 0 <= k < |r.frames| && k != Offset(r, s) ==> q.frames[k] == r.frames[k])
       && SlotOk(q, t) && s.received <= t.received <= s.received + 1
       && if InWindow(r, s) && s.received < s.count then
            CellOk(q.frames[Offset(r, s)], t, s.start + s.received)
          else t.received == s.received && q.frames == r.frames
  }

  lemma LocalUpdateOther<T>(r: Reader<T>, q: Reader<T>, i: nat, j: nat)
    requires Layout(r) && LocalUpdate(r, q, i) && j < |r.files| && j != i
    ensures FileOk(q, j)
  {
    assert FileOk(r, j) && FileOk(r, i);
    var s, u := r.files[i], r.files[j];
    if i < j {
      ChainOrder(r, i, j);
    } else {
      ChainOrder(r, j, i);
    }
    assert q.files[j] == u;
    forall k | 0 <= k < |q.frames| && u.start <= q.emitted + k < u.start + u.count
      ensures CellOk(q.frames[k], u, q.emitted + k)
    {
      assert CellOk(r.frames[k], u, r.emitted + k);
    }
  }

  lemma LocalUpdateOwn<T>(r: Reader<T>, q: Reader<T>, i: nat)
    requires Layout(r) && LocalUpdate(r, q, i)
    ensures FileOk(q, i)
  {
    assert FileOk(r, i);
    var s, t := r.files[i], q.files[i];
    forall k | 0 <= k < |q.frames| && t.start <= q.emitted + k < t.start + t.count
      ensures CellOk(q.frames[k], t, q.emitted + k)
    {
      assert CellOk(r.frames[k], s, r.emitted + k);
    }
  }

  lemma LocalUpdateKeepsLayout<T>(r: Reader<T>, q: Reader<T>, i: nat)
    requires Layout(r) && LocalUpdate(r, q, i)
    ensures Layout(q)
  {
    forall j | 0 <= j < |q.files|
      ensures FileOk(q, j)
    {
      if j == i {
        LocalUpdateOwn(r, q, i);
      } else {
        LocalUpdateOther(r, q, i, j);
      }
    }
  }

  /** The poll's target cell is never complete, so reading into it cannot fail by position. */
  lemma TargetIsIncomplete<T>(r: Reader<T>, i: nat)
    requires Layout(r) && i < |r.files| && InWindow(r, r.files[i]) && r.files[i].received < r.files[i].count
    ensures !r.frames[Offset(r, r.files[i])].complete
  {
    assert FileOk(r, i);
    var k := Offset(r, r.files[i]);
    assert CellOk(r.frames[k], r.files[i], r.emitted + k);
  }

  lemma FlagsAreLocal<T>(r: Reader<T>, i: nat, t: Slot<T>)
    requires i < |r.files| && SlotOk(r, r.files[i]) && SlotCells(r, r.files[i])
    requires t == r.files[i].(blocked := t.blocked, retries := t.retries, state := t.state)
    requires t.retries <= r.maxRetries && (t.state.Opening? ==> t.received == 0)
    ensures LocalUpdate(r, SetSlot(r, i, t), i)
  {
    var s := r.files[i];
    if InWindow(r, s) && s.received < s.count {
      assert CellOk(r.frames[Offset(r, s)], s, r.emitted + Offset(r, s));
    }
  }

  lemma ReadIsLocal<T>(r: Reader<T>, i: nat, answer: Answer<T>, made: T)
    requires i < |r.files| && SlotOk(r, r.files[i]) && !r.files[i].state.Opening?
    requires InWindow(r, r.files[i]) && r.files[i].received < r.files[i].count
    requires !PollRead(r, i, answer, made).0.terminated
    ensures LocalUpdate(r, PollRead(r, i, answer, made).0, i)
  {
  }

  lemma PollIsLocal<T>(r: Reader<T>, i: nat, answer: Answer<T>, made: T)
    requires i < |r.files| && SlotOk(r, r.files[i]) && SlotCells(r, r.files[i])
    requires !PollStep(r, i, answer, made).0.terminated
    ensures LocalUpdate(r, PollStep(r, i, answer, made).0, i)
  {
    hide LocalUpdate, SlotCells, PollRead;
    var s := r.files[i];
    if !s.blocked && s.state.Reading? && s.received < s.count && InWindow(r, s) {
      ReadIsLocal(r, i, answer, made);
    } else {
      PollFlags(r, i, answer, made);
      hide PollStep;
      FlagsAreLocal(r, i, PollStep(r, i, answer, made).0.files[i]);
    }
  }

  /** A poll that does not read changes flags of its own slot only. */
  lemma PollFlags<T>(r: Reader<T>, i: nat, answer: Answer<T>, made: T)
    requires i < |r.files| && SlotOk(r, r.files[i]) && !PollStep(r, i, answer, made).0.terminated
    requires var s := r.files[i]; s.blocked || s.state.Opening? || s.received == s.count || !InWindow(r, s)
    ensures var q, s := PollStep(r, i, answer, made).0, r.files[i];
            && |q.files| == |r.files| && q == SetSlot(r, i, q.files[i])
            && q.files[i] == s.(blocked := q.files[i].blocked, retries := q.files[i].retries, state := q.files[i].state)
            && q.files[i].retries <= r.maxRetries && (q.files[i].state.Opening? ==> s.received == 0)
  {
    hide PollRead;
    assert r.files[i := r.files[i]] == r.files;
  }

  lemma {:induction false} BuffersUpdate<T>(frames: seq<Cell<T>>, k: nat, c: Cell<T>)
    requires k < |frames|
    ensures Buffers(frames[k := c])
            == Buffers(frames) - (if frames[k].frame.Some? then 1 else 0) + (if c.frame.Some? then 1 else 0)
  {
    if k == 0 {
      assert frames[k := c][1..] == frames[1..];
    } else {
      assert frames[k := c][1..] == frames[1..][k - 1 := c];
      BuffersUpdate(frames[1..], k - 1, c);
    }
  }

  lemma {:induction false} BuffersAppend<T>(a: seq<Cell<T>>, b: seq<Cell<T>>)
    ensures Buffers(a + b) == Buffers(a) + Buffers(b)
  {
    if a == [] {
      assert a + b == b;
    } else {
      assert (a + b)[1..] == a[1..] + b;
      BuffersAppend(a[1..], b);
    }
  }

  lemma {:induction false} BuffersAtMost<T>(frames: seq<Cell<T>>)
    ensures Buffers(frames) <= |frames|
  {
    if frames != [] {
      BuffersAtMost(frames[1..]);
    }
  }

  /** A new buffer is made only when none is waiting, so never more than the window holds. */
  lemma WithBufferKeepsRecycling<T>(r: Reader<T>, k: nat, made: T)
    requires k < |r.frames| && Recycling(r) && Grant(r)
    ensures Recycling(WithBuffer(r, k, made)) && WithBuffer(r, k, made).frames[k].frame.Some?
  {
    var u := WithBuffer(r, k, made);
    BuffersUpdate(r.frames, k, u.frames[k]);
    BuffersAtMost(u.frames);
  }

  lemma ReadKeepsRecycling<T>(r: Reader<T>, i: nat, answer: Answer<T>, made: T)
    requires i < |r.files| && InWindow(r, r.files[i]) && Recycling(r) && Grant(r)
    requires !PollRead(r, i, answer, made).0.terminated
    ensures Recycling(PollRead(r, i, answer, made).0) && Grant(PollRead(r, i, answer, made).0)
  {
    hide WithBuffer;
    var k := Offset(r, r.files[i]);
    var u, q := WithBuffer(r, k, made), PollRead(r, i, answer, made).0;
    WithBufferKeepsRest(r, k, made);
    WithBufferKeepsRecycling(r, k, made);
    if q != r {
      BuffersUpdate(u.frames, k, q.frames[k]);
    }
  }

  lemma WithBufferKeepsRest<T>(r: Reader<T>, k: nat, made: T)
    requires k < |r.frames|
    ensures var u := WithBuffer(r, k, made);
            |u.frames| == |r.frames| && u == r.(frames := u.frames, recycled := u.recycled, created := u.created)
  {
  }

  lemma SameWindowRecycling<T>(r: Reader<T>, q: Reader<T>)
    requires Recycling(r) && Grant(r)
    requires q.frames == r.frames && q.recycled == r.recycled && q.created == r.created && q.capacity == r.capacity
    requires q.total == r.total && q.window == r.window && q.widest == r.widest
    ensures Recycling(q) && Grant(q)
  {
  }

  lemma PollKeepsRecycling<T>(r: Reader<T>, i: nat, answer: Answer<T>, made: T)
    requires i < |r.files| && Recycling(r) && Grant(r)
    requires !PollStep(r, i, answer, made).0.terminated
    ensures Recycling(PollStep(r, i, answer, made).0) && Grant(PollStep(r, i, answer, made).0)
  {
    hide PollRead, Recycling, Grant;
    var s := r.files[i];
    if !s.blocked && s.state.Reading? && s.received != s.count && InWindow(r, s) {
      ReadKeepsRecycling(r, i, answer, made);
    } else {
      SameWindowRecycling(r, PollStep(r, i, answer, made).0);
    }
  }

  lemma FailKeepsInv<T>(r: Reader<T>, u: Reader<T>, error: ReadError)
    requires Inv(r) && !r.terminated
    requires u.outputs == r.outputs && u.admitted == r.admitted && u.total == r.total && u.window == r.window
    requires u.error == r.error && u.delivered == r.delivered
    ensures Inv(Fail(u, error))
  {
  }

  lemma PollKeepsInv<T>(r: Reader<T>, i: nat, answer: Answer<T>, made: T)
    requires Inv(r) && Enabled(r, PollFile(i, answer, made))
    ensures Inv(PollStep(r, i, answer, made).0)
  {
    hide Layout, Grant, Recycling, LocalUpdate, SlotCells, SlotContent, PollStep;
    var q := PollStep(r, i, answer, made).0;
    PollKeepsRest(r, i, answer, made);
    if q.terminated {
      PollFails(r, i, answer, made);
    } else {
      LayoutFile(r, i);
      PollIsLocal(r, i, answer, made);
      LocalUpdateKeepsLayout(r, q, i);
      PollKeepsRecycling(r, i, answer, made);
    }
  }

  lemma LayoutFile<T>(r: Reader<T>, i: nat)
    requires Layout(r) && i < |r.files|
    ensures FileOk(r, i)
  {
  }

  lemma PollFails<T>(r: Reader<T>, i: nat, answer: Answer<T>, made: T)
    requires Inv(r) && !r.terminated && i < |r.files| && PollStep(r, i, answer, made).0.terminated
    ensures Inv(PollStep(r, i, answer, made).0)
  {
    hide Layout, Grant, Recycling, Emptied, Inv;
    var s := r.files[i];
    if s.state.Opening? {
      FailKeepsInv(r, r, Backend);
    } else if r.frames[Offset(r, s)].complete {
      FailKeepsInv(r, r, InvalidFramePosition);
    } else {
      var u := WithBuffer(r, Offset(r, s), made);
      FailKeepsInv(r, u, Backend);
      FailKeepsInv(r, u, UnexpectedEof);
    }
  }

  /** A poll leaves everything else alone, unless it breaks the reader. */
  ghost predicate Untouched<T>(r: Reader<T>, q: Reader<T>) {
    && q == r.(files := q.files, frames := q.frames, recycled := q.recycled, created := q.created)
    && |q.files| == |r.files| && |q.frames| == |r.frames|
  }

  lemma ReadKeepsRest<T>(r: Reader<T>, i: nat, answer: Answer<T>, made: T)
    requires i < |r.files| && !r.terminated && InWindow(r, r.files[i])
    ensures var q := PollRead(r, i, answer, made).0;
            if q.terminated then q.failed else Untouched(r, q)
  {
    hide WithBuffer;
    WithBufferKeepsRest(r, Offset(r, r.files[i]), made);
  }

  lemma PollKeepsRest<T>(r: Reader<T>, i: nat, answer: Answer<T>, made: T)
    requires i < |r.files| && !r.terminated
    ensures var q := PollStep(r, i, answer, made).0;
            if q.terminated then q.failed else Untouched(r, q)
  {
    hide PollRead;
    if InWindow(r, r.files[i]) {
      ReadKeepsRest(r, i, answer, made);
    }
  }

  // --- the other events -----------------------------------------------------------------------

  lemma AuthorizeKeepsFile<T>(r: Reader<T>, i: nat)
    requires i < |r.files| && FileOk(r, i)
    ensures FileOk(AuthorizeStep(r), i)
  {
    var q, s := AuthorizeStep(r), r.files[i];
    forall k | 0 <= k < |q.frames| && s.start <= q.emitted + k < s.start + s.count
      ensures CellOk(q.frames[k], s, q.emitted + k)
    {
      if k < |r.frames| {
        assert CellOk(r.frames[k], s, r.emitted + k);
      }
    }
  }

  lemma AuthorizeKeepsInv<T>(r: Reader<T>)
    requires Inv(r) && !r.terminated
    ensures Inv(AuthorizeStep(r))
  {
    hide Layout, Sequence, Buffers;
    AuthorizeKeepsLayout(r);
    BuffersAppend(r.frames, Empty<T>(Extra(r)));
    EmptyHasNoBuffers<T>(Extra(r));
  }

  lemma AuthorizeKeepsLayout<T>(r: Reader<T>)
    requires Layout(r)
    ensures Layout(AuthorizeStep(r))
  {
    var q := AuthorizeStep(r);
    SameSequence(r, q);
    hide FileOk, Sequence;
    forall i | 0 <= i < |q.files|
      ensures FileOk(q, i)
    {
      AuthorizeKeepsFile(r, i);
    }
  }

  lemma {:induction false} EmptyHasNoBuffers<T>(n: nat)
    ensures Buffers(Empty<T>(n)) == 0
  {
    if n > 0 {
      assert Empty<T>(n)[1..] == Empty<T>(n - 1);
      EmptyHasNoBuffers<T>(n - 1);
    }
  }

  lemma PushKeepsLayout<T>(r: Reader<T>, file: Source<T>)
    requires Layout(r) && Accepts(r, file)
    ensures Layout(PushStep(r, file))
  {
    hide Sequence;
    var q := PushStep(r, file);
    PushSequence(r, file);
    forall i | 0 <= i < |q.files|
      ensures FileOk(q, i)
    {
      if i < |r.files| {
        PushKeepsFile(r, q, i);
      }
    }
  }

  lemma PushSequence<T>(r: Reader<T>, file: Source<T>)
    ensures Sequence(PushStep(r, file)) == Sequence(r) + file.content
  {
    assert Contents(r.admitted + [file]) == Contents(r.admitted) + [file.content];
    FlattenAppend(Contents(r.admitted), [file.content]);
    FlattenOne(file.content);
  }

  lemma PushKeepsFile<T>(r: Reader<T>, q: Reader<T>, i: nat)
    requires i < |r.files| && FileOk(r, i)
    requires i < |q.files| && q.files[i] == r.files[i] && q.frames == r.frames && q.emitted == r.emitted
    requires q.maxRetries == r.maxRetries && r.discovered <= q.discovered && Sequence(r) <= Sequence(q)
    ensures FileOk(q, i)
  {
    var s := r.files[i];
    forall k | 0 <= k < |q.frames| && s.start <= q.emitted + k < s.start + s.count
      ensures CellOk(q.frames[k], s, q.emitted + k)
    {
      assert CellOk(r.frames[k], s, r.emitted + k);
    }
    assert Sequence(q)[s.start..s.start + s.count] == Sequence(r)[s.start..s.start + s.count];
  }

  lemma UnblockKeepsLayout<T>(r: Reader<T>)
    requires Layout(r)
    ensures Layout(r.(files := Unblocked(r.files)))
  {
    var q := r.(files := Unblocked(r.files));
    forall i | 0 <= i < |q.files|
      ensures FileOk(q, i)
    {
      assert FileOk(r, i);
      forall k | 0 <= k < |q.frames| && q.files[i].start <= q.emitted + k < q.files[i].start + q.files[i].count
        ensures CellOk(q.frames[k], q.files[i], q.emitted + k)
      {
        assert CellOk(r.frames[k], r.files[i], r.emitted + k);
      }
    }
  }

  /** The frame handed out is the next one of the sequential reading. */
  lemma EmittedFrame<T>(r: Reader<T>)
    requires Layout(r) && r.files != [] && r.frames != [] && r.frames[0].complete
    ensures r.emitted < |Sequence(r)| && r.frames[0].frame == Some(Sequence(r)[r.emitted])
  {
    assert FileOk(r, 0);
    var s := r.files[0];
    assert CellOk(r.frames[0], s, r.emitted + 0);
    assert Sequence(r)[s.start..s.start + s.count][r.emitted - s.start] == Sequence(r)[r.emitted];
  }

  lemma PoppedKeepsFile<T>(r: Reader<T>, given: T, i: nat)
    requires Layout(r) && i < |r.files| && r.frames != [] && r.frames[0].frame.Some? && r.frames[0].complete
    ensures FileOk(Popped(r, given), i)
  {
    var q, s := Popped(r, given), r.files[i];
    assert FileOk(r, i);
    if i > 0 {
      ChainOrder(r, 0, i);
    }
    assert s.start <= r.emitted ==> CellOk(r.frames[0], s, r.emitted + 0);
    forall k | 0 <= k < |q.frames| && s.start <= q.emitted + k < s.start + s.count
      ensures CellOk(q.frames[k], s, q.emitted + k)
    {
      assert CellOk(r.frames[k + 1], s, r.emitted + (k + 1));
    }
  }

  lemma RetireStops<T>(t: Reader<T>)
    requires t.files != [] ==> t.emitted != t.files[0].start + t.files[0].count
    ensures Retire(t) == t
  {
  }

  lemma RetireHead<T>(r: Reader<T>, q: Reader<T>, given: T)
    requires Layout(r) && r.files != [] && r.frames != [] && r.frames[0].frame.Some? && q == Popped(r, given)
    ensures var t := if q.emitted == q.files[0].start + q.files[0].count then q.(files := q.files[1..]) else q;
            Retire(q) == t && Chain(t)
  {
    LayoutFile(r, 0);
    if |r.files| > 1 {
      LayoutFile(r, 1);
    }
    hide Layout, FileOk, Sequence;
    if q.emitted == q.files[0].start + q.files[0].count {
      var t := q.(files := q.files[1..]);
      assert t.files != [] ==> t.files[0].start == q.emitted;
      RetireStops(t);
    } else {
      RetireStops(q);
    }
  }

  lemma EmitKeepsLayout<T>(r: Reader<T>, given: T)
    requires Layout(r) && r.files != [] && r.frames != [] && r.frames[0].frame.Some? && r.frames[0].complete
    ensures Layout(Retire(Popped(r, given)))
  {
    hide Sequence, Chain, Retire;
    var q, t := Popped(r, given), Retire(Popped(r, given));
    RetireHead(r, q, given);
    SameSequence(r, t);
    EmittedFrame(r);
    assert Sequence(r)[..r.emitted + 1] == Sequence(r)[..r.emitted] + [Sequence(r)[r.emitted]];
    EmitKeepsFiles(r, given);
  }

  lemma EmitKeepsFiles<T>(r: Reader<T>, given: T)
    requires Layout(r) && r.files != [] && r.frames != [] && r.frames[0].frame.Some? && r.frames[0].complete
    ensures forall i :: 0 <= i < |Retire(Popped(r, given)).files| ==> FileOk(Retire(Popped(r, given)), i)
  {
    hide Layout, FileOk;
    var q, t := Popped(r, given), Retire(Popped(r, given));
    RetireHead(r, q, given);
    hide Retire, Popped;
    forall i | 0 <= i < |t.files|
      ensures FileOk(t, i)
    {
      var j := if t.files == q.files then i else i + 1;
      PoppedKeepsFile(r, given, j);
      SameFile(q, t, j, i);
    }
  }

  lemma SameFile<T>(q: Reader<T>, t: Reader<T>, j: nat, i: nat)
    requires t == q.(files := t.files) && j < |q.files| && i < |t.files| && t.files[i] == q.files[j] && FileOk(q, j)
    ensures FileOk(t, i)
  {
  }

  lemma EmitKeepsInv<T>(r: Reader<T>, given: T)
    requires Inv(r) && Enabled(r, Emit(given))
    ensures Inv(EmitStep(r, given))
  {
    hide Layout, Sequence, Retire;
    NonemptyWindow(r);
    EmitKeepsLayout(r, given);
    EmitChanges(r, given);
    assert r.frames == [r.frames[0]] + r.frames[1..];
    SameLayout(Retire(Popped(r, given)), EmitStep(r, given));
  }

  lemma EmitChanges<T>(r: Reader<T>, given: T)
    requires Layout(r) && r.files != [] && r.frames != [] && r.frames[0].frame.Some?
    ensures Retire(Popped(r, given)) == Popped(r, given).(files := Retire(Popped(r, given)).files)
  {
    RetireHead(r, Popped(r, given), given);
  }

  /** Handing out a frame costs the window one cell, and the grant only what exceeds both the target and
      the cells left: all of that, once it is a batch of 32 frames or once the window is back within
      its target, and nothing before. */
  lemma EmitAdjusts<T>(r: Reader<T>, given: T)
    requires Inv(r) && Enabled(r, Emit(given))
    ensures var q := Step(r, Emit(given));
            var left := |r.frames| - 1;
            var excess := r.capacity - Max(r.window.target, left);
            && q.frames == r.frames[1..] && q.emitted == r.emitted + 1 && q.recycled == r.recycled + [given]
            && q.capacity == if excess >= 32 || (excess > 0 && left <= r.window.target) then r.capacity - excess
                             else r.capacity
  {
    NonemptyWindow(r);
    EmitChanges(r, given);
    hide Inv, Layout, Retire;
  }

  lemma PushKeepsInv<T>(r: Reader<T>, file: Source<T>)
    requires Inv(r) && Accepts(r, file)
    ensures Inv(PushStep(r, file))
  {
    hide Layout;
    PushKeepsLayout(r, file);
  }

  lemma NonemptyWindow<T>(r: Reader<T>)
    requires Layout(r) && r.frames != []
    ensures r.files != []
  {
  }

  lemma StepKeepsInv<T>(r: Reader<T>, e: Event<T>)
    requires Inv(r) && Enabled(r, e)
    ensures Inv(Step(r, e))
  {
    hide Layout, Recycling, Sequence, PushStep, PollStep, EmitStep, AuthorizeStep;
    match e
    case PushFile(file) => PushKeepsInv(r, file);
    case CloseFiles => SameLayout(r, Step(r, e));
    case SetWindow(_) => SameLayout(r, Step(r, e));
    case GrowGrant(_) => SameLayout(r, Step(r, e));
    case Unblock => UnblockKeepsInv(r);
    case Authorize => AuthorizeKeepsInv(r);
    case PollFile(index, answer, made) => PollKeepsInv(r, index, answer, made);
    case Emit(given) => NonemptyWindow(r); EmitKeepsInv(r, given);
    case Finish => SameLayout(r, Step(r, e)); EmptyReader(r);
    case TakeError => SameSequence(r, Step(r, e));
  }

  lemma EmptyReader<T>(r: Reader<T>)
    requires Layout(r) && r.files == []
    ensures r.frames == [] && r.outputs == Sequence(r)
  {
  }

  lemma UnblockKeepsInv<T>(r: Reader<T>)
    requires Inv(r)
    ensures Inv(r.(files := Unblocked(r.files)))
  {
    hide Layout, Sequence;
    SameSequence(r, r.(files := Unblocked(r.files)));
    if !r.failed {
      UnblockKeepsLayout(r);
    }
  }

  lemma SameSequence<T>(r: Reader<T>, q: Reader<T>)
    requires q.admitted == r.admitted
    ensures Sequence(q) == Sequence(r)
  {
  }

  lemma SameLayout<T>(r: Reader<T>, q: Reader<T>)
    requires q.files == r.files && q.frames == r.frames && q.emitted == r.emitted && q.discovered == r.discovered
    requires q.admitted == r.admitted && q.outputs == r.outputs && q.modulus == r.modulus
    requires q.maxRetries == r.maxRetries
    requires q.created == r.created && q.recycled == r.recycled && q.total == r.total && q.widest >= r.widest
    ensures Layout(r) ==> Layout(q)
    ensures Recycling(r) ==> Recycling(q)
    ensures Sequence(q) == Sequence(r)
  {
    if Layout(r) {
      forall i | 0 <= i < |q.files|
        ensures FileOk(q, i)
      {
        assert FileOk(r, i);
      }
    }
  }

  lemma InitInv<T>(maxRetries: nat, total: nat, modulus: nat, window: Window)
    requires total > 0 && modulus > 0 && ValidWindow(window)
    ensures Inv(Init<T>(maxRetries, total, modulus, window))
  {
  }

  // --- whole runs -------------------------------------------------------------------------------

  lemma {:induction false} EveryRunKeepsInv<T>(r: Reader<T>, events: seq<Event<T>>)
    requires Inv(r)
    ensures Run(r, events).Some? ==> Inv(Run(r, events).value)
    decreases |events|
  {
    hide Inv;
    if events != [] {
      var last := |events| - 1;
      EveryRunKeepsInv(r, events[..last]);
      if Run(r, events).Some? {
        StepKeepsInv(Run(r, events[..last]).value, events[last]);
      }
    }
  }

  /** Main result. Whatever the interleaving of admissions, polls, budget changes and window
      changes, and whatever the backends answer, the outputs are a prefix of what a sequential
      reading of the admitted files delivers. End of input without a failure is reached only when
      input is closed and every declared frame was delivered; a failure is reported at most once. */
  lemma EveryRunReadsSequentially<T>(r: Reader<T>, events: seq<Event<T>>, q: Reader<T>)
    requires Inv(r) && Run(r, events) == Some(q)
    ensures q.outputs <= Flatten(Contents(q.admitted))
    ensures q.terminated && !q.failed ==> q.closed && q.outputs == Flatten(Contents(q.admitted))
    ensures q.delivered <= 1 && (q.delivered == 1 ==> q.failed && q.error.None?)
    ensures (q.failed && q.delivered == 0 ==> q.error.Some?)
    ensures q.failed ==> q.terminated && q.capacity == 0 && q.files == []
  {
    EveryRunKeepsInv(r, events);
  }

  /** The file whose declared positions include `p`. */
  lemma {:induction false} Owner<T>(r: Reader<T>, p: nat, n: nat) returns (i: nat)
    requires Chain(r) && 0 < n <= |r.files| && r.files[0].start <= p < r.files[n - 1].start + r.files[n - 1].count
    ensures i < n && r.files[i].start <= p < r.files[i].start + r.files[i].count
  {
    if r.files[n - 1].start <= p {
      i := n - 1;
    } else {
      i := Owner(r, p, n - 1);
    }
  }

  /** The window in every reachable state: cell `k` stands for logical position `emitted + k`, which
      one admitted file owns. It is complete exactly when that file has received the position, and
      then holds the frame a sequential reading delivers there; an incomplete cell holds a buffer
      only at the one position its file reads next. */
  lemma WindowIsExact<T>(r: Reader<T>, events: seq<Event<T>>, q: Reader<T>, k: nat) returns (i: nat)
    requires Inv(r) && Run(r, events) == Some(q) && !q.failed && k < |q.frames|
    ensures i < |q.files|
    ensures var s, c, p := q.files[i], q.frames[k], q.emitted + k;
            && s.start <= p < s.start + s.count
            && (c.complete <==> p < s.start + s.received)
            && (c.complete ==> p < |Sequence(q)| && c.frame == Some(Sequence(q)[p]))
            && (!c.complete && c.frame.Some? ==> p == s.start + s.received)
  {
    hide Layout, Run, Sequence, Grant, Recycling;
    EveryRunKeepsInv(r, events);
    i := CellOwner(q, k);
  }

  lemma CellOwner<T>(q: Reader<T>, k: nat) returns (i: nat)
    requires Layout(q) && k < |q.frames|
    ensures i < |q.files|
    ensures var s, c, p := q.files[i], q.frames[k], q.emitted + k;
            && s.start <= p < s.start + s.count
            && (c.complete <==> p < s.start + s.received)
            && (c.complete ==> p < |Sequence(q)| && c.frame == Some(Sequence(q)[p]))
            && (!c.complete && c.frame.Some? ==> p == s.start + s.received)
  {
    hide Sequence;
    NonemptyWindow(q);
    i := Owner(q, q.emitted + k, |q.files|);
    LayoutFile(q, i);
    var s := q.files[i];
    assert CellOk(q.frames[k], s, q.emitted + k);
    assert Sequence(q)[s.start..s.start + s.count][q.emitted + k - s.start] == Sequence(q)[q.emitted + k];
  }

  /** Resource bounds in every reachable state: the grant covers the window and exceeds what is
      needed by less than 32 frames, and buffers are only made while fewer exist than the budget
      and the widest window ever set allow, however many frames have been read. */
  lemma EveryRunIsBounded<T>(r: Reader<T>, events: seq<Event<T>>, q: Reader<T>)
    requires Inv(r) && Run(r, events) == Some(q) && !q.failed
    ensures |q.frames| <= q.capacity <= Max(q.window.target, |q.frames|) + 31
    ensures q.capacity <= q.total
    ensures q.created == |q.recycled| + Buffers(q.frames) && q.created <= Min(q.total, q.widest)
  {
    EveryRunKeepsInv(r, events);
  }

  /** The buffer in the cell of logical position `p`. */
  function BufferAt<T>(r: Reader<T>, p: nat): Option<T> {
    if r.emitted <= p < r.emitted + |r.frames| then r.frames[p - r.emitted].frame else None
  }

  /** Whether event `e` reads into the cell of position `p`. */
  predicate ReadsInto<T>(r: Reader<T>, e: Event<T>, p: nat) {
    && e.PollFile? && e.index < |r.files| && Asks(r, e.index) && r.files[e.index].state.Reading?
    && r.files[e.index].start + r.files[e.index].received == p
  }

  /** A buffer under preparation, or complete, stays the same until it is read into again or
      handed out: window moves, admissions, grants and the polls of other files never touch it. */
  lemma BufferIsKept<T>(r: Reader<T>, e: Event<T>, p: nat)
    requires Inv(r) && Enabled(r, e) && !Step(r, e).failed
    requires r.emitted <= p < r.emitted + |r.frames| && Step(r, e).emitted <= p && !ReadsInto(r, e, p)
    ensures p < Step(r, e).emitted + |Step(r, e).frames| && BufferAt(Step(r, e), p) == BufferAt(r, p)
  {
    hide Layout, Grant, Recycling, Sequence, PollStep, Retire, Inv;
    match e
    case PollFile(index, answer, made) => PollKeepsBuffer(r, index, answer, made, p);
    case Emit(given) => EmitWindow(r, given);
    case _ =>
  }

  lemma EmitWindow<T>(r: Reader<T>, given: T)
    requires Inv(r) && Enabled(r, Emit(given))
    ensures EmitStep(r, given).emitted == r.emitted + 1 && EmitStep(r, given).frames == r.frames[1..]
  {
    hide Retire;
    NonemptyWindow(r);
    EmitChanges(r, given);
  }

  lemma PollKeepsBuffer<T>(r: Reader<T>, index: nat, answer: Answer<T>, made: T, p: nat)
    requires index < |r.files| && !PollStep(r, index, answer, made).0.failed
    requires r.emitted <= p < r.emitted + |r.frames| && !ReadsInto(r, PollFile(index, answer, made), p)
    ensures var q := PollStep(r, index, answer, made).0;
            q.emitted == r.emitted && |q.frames| == |r.frames| && BufferAt(q, p) == BufferAt(r, p)
  {
    hide PollStep, PollRead, BufferAt;
    PollOrRead(r, index, answer, made);
    if Asks(r, index) && r.files[index].state.Reading? {
      ReadKeepsOthers(r, index, answer, made, p);
    }
    SameFramesSameBuffer(r, PollStep(r, index, answer, made).0, p);
  }

  /** A poll reads, or leaves the window alone. */
  lemma PollOrRead<T>(r: Reader<T>, index: nat, answer: Answer<T>, made: T)
    requires index < |r.files| && !PollStep(r, index, answer, made).0.failed
    ensures if Asks(r, index) && r.files[index].state.Reading?
            then InWindow(r, r.files[index]) && PollStep(r, index, answer, made) == PollRead(r, index, answer, made)
            else PollStep(r, index, answer, made).0.frames == r.frames
                 && PollStep(r, index, answer, made).0.emitted == r.emitted
  {
    hide PollRead;
  }

  lemma SameFramesSameBuffer<T>(r: Reader<T>, q: Reader<T>, p: nat)
    ensures q.frames == r.frames && q.emitted == r.emitted ==> BufferAt(q, p) == BufferAt(r, p)
  {
  }

  lemma ReadKeepsOthers<T>(r: Reader<T>, index: nat, answer: Answer<T>, made: T, p: nat)
    requires index < |r.files| && InWindow(r, r.files[index])
    requires r.emitted <= p < r.emitted + |r.frames| && p != r.files[index].start + r.files[index].received
    ensures var q := PollRead(r, index, answer, made).0;
            !q.failed ==> q.emitted == r.emitted && |q.frames| == |r.frames| && BufferAt(q, p) == BufferAt(r, p)
  {
    hide WithBuffer;
    WithBufferKeepsRest(r, Offset(r, r.files[index]), made);
    WithBufferKeepsOthers(r, Offset(r, r.files[index]), made, p - r.emitted);
  }

  lemma WithBufferKeepsOthers<T>(r: Reader<T>, k: nat, made: T, j: nat)
    requires k < |r.frames| && j < |r.frames| && j != k
    ensures |WithBuffer(r, k, made).frames| == |r.frames| && WithBuffer(r, k, made).frames[j] == r.frames[j]
  {
  }

  /** A poll ends the reader exactly when the backend it asks reports an error that may not be
      retried, or the end of a file that declared more frames. Only opening is retried; a position
      error can never occur. */
  lemma PollFailsExactly<T>(r: Reader<T>, i: nat, answer: Answer<T>, made: T)
    requires Inv(r) && !r.terminated && i < |r.files|
    ensures var q := PollStep(r, i, answer, made).0;
            && (q.terminated <==>
                  Asks(r, i) && if r.files[i].state.Opening? then answer.Failed? && r.files[i].retries == r.maxRetries
                                else answer.Failed? || answer.Eof?)
            && (q.terminated ==>
                  q.error == Some(if r.files[i].state.Reading? && answer.Eof? then UnexpectedEof else Backend))
            && (!q.terminated && Asks(r, i) && r.files[i].state.Opening? && answer.Failed? ==>
                  q.files[i] == r.files[i].(retries := r.files[i].retries + 1))
  {
    LayoutFile(r, i);
    if InWindow(r, r.files[i]) && r.files[i].received < r.files[i].count {
      TargetIsIncomplete(r, i);
    }
  }

  /** What is left to do for a file: retries, opening, and frames. */
  function Rest<T>(s: Slot<T>, maxRetries: nat): nat {
    if s.state.Opening? then Minus(maxRetries, s.retries) + 1 + s.count else Minus(s.count, s.received)
  }

  /** A poll makes progress exactly when it leaves less to do for its file; so a file takes at most
      retries + 1 + count polls with progress over its life. */
  lemma PollLowersRest<T>(r: Reader<T>, i: nat, answer: Answer<T>, made: T)
    requires Inv(r) && !r.terminated && i < |r.files| && !PollStep(r, i, answer, made).0.terminated
    ensures var (q, progressed) := PollStep(r, i, answer, made);
            && |q.files| == |r.files|
            && (progressed <==> Rest(q.files[i], q.maxRetries) < Rest(r.files[i], r.maxRetries))
            && (!progressed <==> Rest(q.files[i], q.maxRetries) == Rest(r.files[i], r.maxRetries))
            && (Asks(r, i) ==> (progressed <==> !answer.Pending?))
  {
    LayoutFile(r, i);
    PollKeepsRest(r, i, answer, made);
    hide Layout, PollRead, SlotCells, SlotContent;
    if InWindow(r, r.files[i]) {
      ReadLowersRest(r, i, answer, made);
    }
  }

  lemma ReadLowersRest<T>(r: Reader<T>, i: nat, answer: Answer<T>, made: T)
    requires i < |r.files| && InWindow(r, r.files[i]) && SlotOk(r, r.files[i])
    ensures var (q, progressed) := PollRead(r, i, answer, made);
            r.files[i].received < r.files[i].count && r.files[i].state.Reading? && !q.terminated ==>
              && |q.files| == |r.files| && q.maxRetries == r.maxRetries && (progressed <==> answer.Done?)
              && (answer.Done? <==> !answer.Pending?)
              && Rest(q.files[i], q.maxRetries) == Rest(r.files[i], r.maxRetries) - (if progressed then 1 else 0)
  {
    hide WithBuffer;
    WithBufferKeepsRest(r, Offset(r, r.files[i]), made);
  }

  // --- stalls and work ------------------------------------------------------------------------------

  /** File `i` cannot move in this call: it was told to wait, is finished, or its next position is
      outside the window. */
  predicate Stuck<T>(r: Reader<T>, i: nat)
    requires i < |r.files|
  {
    var s := r.files[i];
    s.blocked || (s.state.Reading? && s.received != s.count && !InWindow(r, s))
  }

  /** No file can move in this call. */
  predicate AllStuck<T>(r: Reader<T>) {
    forall i :: 0 <= i < |r.files| ==> Stuck(r, i)
  }

  /** The first cell belongs to the head file, at the position it reads next unless complete. */
  lemma HeadReadsFront<T>(r: Reader<T>)
    requires Layout(r) && r.frames != [] && !r.frames[0].complete
    ensures r.files != [] && InWindow(r, r.files[0]) && r.files[0].received < r.files[0].count
  {
    NonemptyWindow(r);
    LayoutFile(r, 0);
    assert CellOk(r.frames[0], r.files[0], r.emitted + 0);
  }

  lemma StuckHeadIsBlocked<T>(r: Reader<T>)
    requires Layout(r) && r.frames != [] && !r.frames[0].complete && (r.files != [] ==> Stuck(r, 0))
    ensures r.files != [] && r.files[0].blocked && r.files[0].received < r.files[0].count
  {
    HeadReadsFront(r);
  }

  /** A reader that may take no further cell and has none holds no capacity at all. */
  lemma NoCellsNoCapacity<T>(r: Reader<T>)
    requires Inv(r) && r.files != [] && r.frames == [] && Extra(r) == 0
    ensures r.capacity == 0
  {
    LayoutFile(r, 0);
  }

  /** Whether every known position that the grant and the window's target allow has a cell. */
  ghost predicate WindowFilled<T>(r: Reader<T>) {
    |r.frames| >= Min(Min(r.capacity, r.window.target), Minus(r.discovered, r.emitted))
  }

  /** Authorizing takes as many cells as grant, target and known frames allow, and gives none up. */
  lemma AuthorizeFillsWindow<T>(r: Reader<T>)
    requires Inv(r) && !r.terminated
    ensures |AuthorizeStep(r).frames|
            == Max(|r.frames|, Min(Min(r.capacity, r.window.target), r.discovered - r.emitted))
    ensures r.frames <= AuthorizeStep(r).frames
    ensures forall k :: |r.frames| <= k < |AuthorizeStep(r).frames| ==> AuthorizeStep(r).frames[k] == Cell(None, false)
  {
    assert Layout(r);
  }

  lemma NoExtraFills<T>(r: Reader<T>)
    requires Extra(r) == 0
    ensures WindowFilled(r)
  {
  }

  lemma AuthorizeIsIdempotent<T>(r: Reader<T>)
    ensures Extra(AuthorizeStep(r)) == 0
    ensures Extra(r) == 0 ==> AuthorizeStep(r) == r
  {
    if Extra(r) == 0 {
      assert r.frames + Empty<T>(0) == r.frames;
    }
  }

  /** A poll without progress leaves its file stuck, and marks a pending answer as such. */
  lemma IdlePoll<T>(r: Reader<T>, i: nat, answer: Answer<T>, made: T)
    requires Layout(r) && !r.terminated && i < |r.files|
    ensures var (q, progressed) := PollStep(r, i, answer, made);
            !q.terminated ==>
              && Untouched(r, q) && (forall j :: 0 <= j < |r.files| && j != i ==> q.files[j] == r.files[j])
              && (!progressed ==> Stuck(q, i) && q.files[i].received == r.files[i].received)
              && (q.files[i].blocked && !r.files[i].blocked ==>
                   q.files[i].received == q.files[i].count || (Asks(r, i) && answer.Pending?))
  {
    LayoutFile(r, i);
    hide Layout, Sequence, PollRead, FileOk;
    PollKeepsRest(r, i, answer, made);
    if InWindow(r, r.files[i]) {
      ReadOutcome(r, i, answer, made);
    }
  }

  lemma ReadOutcome<T>(r: Reader<T>, i: nat, answer: Answer<T>, made: T)
    requires i < |r.files| && InWindow(r, r.files[i]) && SlotOk(r, r.files[i])
    ensures var (q, progressed) := PollRead(r, i, answer, made);
            !q.terminated && r.files[i].received < r.files[i].count && !r.files[i].blocked ==>
              && (forall j :: 0 <= j < |r.files| && j != i ==> q.files[j] == r.files[j])
              && (!progressed ==> q.files[i].blocked && answer.Pending? && q.files[i].received == r.files[i].received)
              && (q.files[i].blocked ==> q.files[i].received == q.files[i].count || answer.Pending?)
  {
  }

  /** Backend polls among the events from position `from` on. */
  function Polls<T>(r: Reader<T>, events: seq<Event<T>>, from: nat): nat
    decreases |events|
  {
    if |events| <= from then 0
    else
      var last := |events| - 1;
      Polls(r, events[..last], from) + Asked(Run(r, events[..last]), events[last])
  }

  function Asked<T>(r: Option<Reader<T>>, e: Event<T>): nat {
    if r.Some? && e.PollFile? && e.index < |r.value.files| && Asks(r.value, e.index) then 1 else 0
  }

  lemma PollsAppend<T>(r: Reader<T>, events: seq<Event<T>>, from: nat, e: Event<T>)
    requires from <= |events|
    ensures Polls(r, events + [e], from) == Polls(r, events, from) + Asked(Run(r, events), e)
  {
    assert (events + [e])[..|events|] == events;
  }

  /** File `i` was found pending by one of the events from `from` on. */
  ghost predicate PendingIn<T>(events: seq<Event<T>>, from: nat, i: nat) {
    exists k :: from <= k < |events| && PendingAt(events[k], i)
  }

  predicate PendingAt<T>(e: Event<T>, i: nat) {
    e.PollFile? && e.index == i && e.answer.Pending?
  }

  /** Event `k` asks the backend of file `i` for something. */
  ghost predicate AsksAt<T>(init: Reader<T>, events: seq<Event<T>>, k: nat, i: nat) {
    k < |events| && events[k].PollFile? && events[k].index == i && Asked(Run(init, events[..k]), events[k]) == 1
  }

  /** The last thing the backend of file `i` was asked by the events from `from` on is pending. */
  ghost predicate Awaits<T>(init: Reader<T>, events: seq<Event<T>>, from: nat, i: nat) {
    exists k :: from <= k < |events| && PendingAt(events[k], i) && NotAskedAfter(init, events, k, i)
  }

  ghost predicate NotAskedAfter<T>(init: Reader<T>, events: seq<Event<T>>, k: nat, i: nat) {
    forall j :: k < j < |events| ==> !AsksAt(init, events, j, i)
  }

  /** A pending operation was not polled again by the events from `from` on. */
  ghost predicate PendingOnce<T>(init: Reader<T>, events: seq<Event<T>>, from: nat) {
    forall k, i :: from <= k < |events| && PendingAt(events[k], i) ==> NotAskedAfter(init, events, k, i)
  }

  lemma PendingAwaits<T>(init: Reader<T>, events: seq<Event<T>>, from: nat, i: nat)
    requires PendingOnce(init, events, from) && PendingIn(events, from, i)
    ensures Awaits(init, events, from, i)
  {
    var k :| from <= k < |events| && PendingAt(events[k], i);
  }

  /** One more event keeps this as long as it asks no file that was found pending. */
  lemma PendingOnceAppend<T>(init: Reader<T>, events: seq<Event<T>>, from: nat, e: Event<T>)
    requires PendingOnce(init, events, from)
    requires forall k, i :: from <= k < |events| && PendingAt(events[k], i) ==> !AsksAt(init, events + [e], |events|, i)
    ensures PendingOnce(init, events + [e], from)
  {
    var after := events + [e];
    forall k, i | from <= k < |after| && PendingAt(after[k], i)
      ensures NotAskedAfter(init, after, k, i)
    {
      forall j | k < j < |after|
        ensures !AsksAt(init, after, j, i)
      {
        assert PendingAt(events[k], i);
        if j < |events| {
          assert after[..j] == events[..j] && !AsksAt(init, events, j, i);
        }
      }
    }
  }
}
