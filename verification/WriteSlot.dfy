/** One write destination: its state machine, the frames it retains, and what its backend has
    accepted in the current attempt. */
module WriteSlots {

  /** A backend's answer. A failed attempt may leave anything behind. */
  datatype Response<T> = Pending | Done | Failed(left: seq<T>)

  /** A destination descriptor; `contents` is what the current attempt has accepted. */
  datatype File<T> = File(name: nat, capacity: nat, contents: seq<T>)

  /** Closing commits the accepted frames: they are the close result. */
  datatype FileState<T> = Idle | Opening | Writing | Closing | Closed(output: seq<T>)

  /** Streaming releases accepted frames; replay retains the complete attempt. */
  datatype Frames<T> = Streaming(queue: seq<T>) | Replay(attempt: seq<T>) {
    static function New(replay: bool): Frames<T> {
      if replay then Replay([]) else Streaming([])
    }

    function Push(frame: T): Frames<T> {
      match this
      case Streaming(q) => Streaming(q + [frame])
      case Replay(a) => Replay(a + [frame])
    }

    predicate HasNext(written: nat) {
      if Streaming? then queue != [] else written < |attempt|
    }

    function Next(written: nat): T
      requires HasNext(written)
    {
      if Streaming? then queue[0] else attempt[written]
    }

    function Accepted(): Frames<T>
      requires Streaming? ==> queue != []
    {
      if Streaming? then Streaming(queue[1..]) else this
    }

    function Len(): nat {
      if Streaming? then |queue| else |attempt|
    }

    function Clear(): Frames<T> {
      New(Replay?)
    }
  }

  datatype Slot<T> = Slot(
    file: File<T>, state: FileState<T>, frames: Frames<T>,
    capacity: nat, filled: nat, written: nat, retries: nat)

  function NewSlot<T>(name: nat, capacity: nat, replay: bool): Slot<T> {
    Slot(File(name, capacity, []), Idle, Frames.New(replay), capacity, 0, 0, 0)
  }

  datatype PollResult<T> = Fatal | Polled(slot: Slot<T>, changed: bool, released: nat)

  /** One state transition or backend poll, plus the capacity it releases. */
  function Poll<T>(s: Slot<T>, answer: Response<T>, closing: bool, maxRetries: nat): PollResult<T> {
    match s.state
    case Opening =>
      (match answer
       case Pending => Polled(s, false, 0)
       case Done => Polled(s.(state := Writing, file := s.file.(contents := [])), true, 0)
       case Failed(left) => Retry(s, left, maxRetries))
    case Writing =>
      if s.frames.HasNext(s.written) then
        (match answer
         case Pending => Polled(s, false, 0)
         case Done =>
           var accepted := s.file.contents + [s.frames.Next(s.written)];
           Polled(s.(written := s.written + 1, frames := s.frames.Accepted(), file := s.file.(contents := accepted)),
                  true, if s.frames.Streaming? then 1 else 0)
         case Failed(left) => Retry(s, left, maxRetries))
      else if s.filled == s.capacity || closing then Polled(s.(state := Closing), true, 0)
      else Polled(s, false, 0)
    case Closing =>
      (match answer
       case Pending => Polled(s, false, 0)
       case Done =>
         Polled(s.(state := Closed(s.file.contents), frames := s.frames.Clear()),
                true, if maxRetries > 0 then s.capacity else 0)
       case Failed(left) => Retry(s, left, maxRetries))
    case _ => Polled(s, false, 0)
  }

  function Retry<T>(s: Slot<T>, left: seq<T>, maxRetries: nat): PollResult<T> {
    if s.retries == maxRetries then Fatal
    else Polled(s.(retries := s.retries + 1, written := 0, state := Opening, file := s.file.(contents := left)),
                true, 0)
  }

  /** Give a finished frame to the slot; the first one makes it openable. */
  function Push<T>(s: Slot<T>, frame: T): Slot<T> {
    s.(frames := s.frames.Push(frame), filled := s.filled + 1,
       state := if s.filled == 0 then Opening else s.state)
  }

  predicate Finished<T>(s: Slot<T>) {
    s.state.Closed?
  }

  // --- what a slot guarantees ----------------------------------------------------------------

  /** Everything ever assigned to the slot's destination, wherever it is now. */
  function Assigned<T>(s: Slot<T>): seq<T> {
    match s.state
    case Closed(output) => output
    case _ =>
      match s.frames
      case Replay(attempt) => attempt
      case Streaming(queue) => (if s.state.Writing? || s.state.Closing? then s.file.contents else []) + queue
  }

  /** The current attempt has accepted exactly the first `written` assigned frames. */
  ghost predicate AttemptOk<T>(s: Slot<T>) {
    match s.state
    case Idle => s.frames.Len() == 0 && s.written == 0 && s.retries == 0
    case Opening => s.written == 0
    case Writing => s.written <= s.filled <= |Assigned(s)| && s.file.contents == Assigned(s)[..s.written]
    case Closing => s.written == s.filled && s.file.contents == Assigned(s)
    case Closed(_) => s.frames.Len() == 0
  }

  ghost predicate SlotInv<T>(s: Slot<T>, maxRetries: nat) {
    && (s.frames.Replay? <==> maxRetries > 0)
    && 0 < s.capacity == s.file.capacity
    && s.filled <= s.capacity
    && s.retries <= maxRetries
    && (s.state.Idle? <==> s.filled == 0)
    && |Assigned(s)| == s.filled
    && AttemptOk(s)
  }

  /** Whether a poll of this slot asks its backend for something. */
  predicate Asks<T>(s: Slot<T>) {
    s.state.Opening? || s.state.Closing? || (s.state.Writing? && s.frames.HasNext(s.written))
  }

  lemma NewSlotInv<T>(name: nat, capacity: nat, maxRetries: nat)
    requires capacity > 0
    ensures SlotInv<T>(NewSlot(name, capacity, maxRetries > 0), maxRetries)
  {
  }

  /** Whatever the backend answers, a poll loses and invents no assigned frame; in particular a
      closed destination has committed exactly what was assigned to it. */
  lemma PollKeepsAssigned<T>(s: Slot<T>, answer: Response<T>, closing: bool, maxRetries: nat)
    requires SlotInv(s, maxRetries)
    ensures var r := Poll(s, answer, closing, maxRetries);
            r.Polled? ==>
              && SlotInv(r.slot, maxRetries)
              && Assigned(r.slot) == Assigned(s)
              && r.slot.file.name == s.file.name && r.slot.capacity == s.capacity && r.slot.filled == s.filled
  {
    if s.state.Writing? && s.frames.HasNext(s.written) && answer.Done? {
      var t := Poll(s, answer, closing, maxRetries).slot;
      assert Assigned(s)[s.written] == s.frames.Next(s.written);
      assert Assigned(s)[..s.written + 1] == Assigned(s)[..s.written] + [Assigned(s)[s.written]];
      if s.frames.Streaming? {
        assert s.file.contents + s.frames.queue == t.file.contents + t.frames.queue;
      }
    }
  }

  lemma PushKeepsInv<T>(s: Slot<T>, frame: T, maxRetries: nat)
    requires SlotInv(s, maxRetries) && s.filled < s.capacity && !s.state.Closing? && !s.state.Closed?
    ensures SlotInv(Push(s, frame), maxRetries)
    ensures Assigned(Push(s, frame)) == Assigned(s) + [frame]
  {
    assert Assigned(Push(s, frame)) == Assigned(s) + [frame];
    if s.state.Writing? {
      assert (Assigned(s) + [frame])[..s.written] == Assigned(s)[..s.written];
    }
  }

  // --- capacity ----------------------------------------------------------------------------

  /** The capacity a slot accounts for: its retained frames, or its whole reservation for replay. */
  function Weight<T>(s: Slot<T>): nat {
    match s.frames
    case Streaming(queue) => |queue|
    case Replay(_) => if s.filled > 0 && !Finished(s) then s.capacity else 0
  }

  /** A poll releases exactly the capacity the slot stops accounting for. */
  lemma PollReleases<T>(s: Slot<T>, answer: Response<T>, closing: bool, maxRetries: nat)
    requires SlotInv(s, maxRetries)
    ensures var r := Poll(s, answer, closing, maxRetries);
            r.Polled? ==> Weight(r.slot) + r.released == Weight(s) && (r.slot.frames.Replay? <==> s.frames.Replay?)
  {
  }

  /** A poll that changes nothing found a pending backend, or a slot that waits for its user. */
  lemma StuckPoll<T>(s: Slot<T>, answer: Response<T>, closing: bool, maxRetries: nat)
    requires SlotInv(s, maxRetries)
    ensures var r := Poll(s, answer, closing, maxRetries);
            r.Polled? && !r.changed <==>
              if Asks(s) then answer.Pending?
              else s.state.Idle? || s.state.Closed? || (s.filled < s.capacity && !closing)
    ensures var r := Poll(s, answer, closing, maxRetries);
            r.Polled? && !r.changed ==> r == Polled(s, false, 0)
  {
  }

  // --- bounded work --------------------------------------------------------------------------

  /** State changes left in the current attempt. */
  function Stage<T>(s: Slot<T>): nat {
    match s.state
    case Writing => (if s.written <= s.capacity then s.capacity - s.written else 0) + 2
    case Closing => 1
    case Closed(_) => 0
    case _ => s.capacity + 3
  }

  function Rank<T>(s: Slot<T>, maxRetries: nat): nat {
    if s.retries <= maxRetries then (maxRetries - s.retries) * (s.capacity + 3) + Stage(s) else 0
  }

  lemma PollLowersRank<T>(s: Slot<T>, answer: Response<T>, closing: bool, maxRetries: nat)
    requires SlotInv(s, maxRetries)
    ensures var r := Poll(s, answer, closing, maxRetries);
            r.Polled? && r.changed ==> Rank(r.slot, maxRetries) < Rank(s, maxRetries)
  {
    PollKeepsAssigned(s, answer, closing, maxRetries);
    var r := Poll(s, answer, closing, maxRetries);
    if r.Polled? && r.slot.retries == s.retries + 1 {
      var left, size := maxRetries - s.retries - 1, s.capacity + 3;
      assert (left + 1) * size == left * size + size;
    }
  }

  /** `n` polls whose backend always succeeds. */
  function PollDone<T>(s: Slot<T>, closing: bool, maxRetries: nat, n: nat): Slot<T>
    decreases n
  {
    if n == 0 then s
    else
      var r := Poll(s, Done, closing, maxRetries);
      if r.Polled? then PollDone(r.slot, closing, maxRetries, n - 1) else s
  }

  /** Whether the slot can be finished without giving it anything more. */
  predicate Finishable<T>(s: Slot<T>, closing: bool) {
    0 < s.filled && !Finished(s) && (s.filled == s.capacity || closing)
  }

  /** A full destination closes by successful backend polls alone: it needs no further capacity. */
  lemma {:induction false} FinishableFinishes<T>(s: Slot<T>, closing: bool, maxRetries: nat) returns (n: nat)
    requires SlotInv(s, maxRetries) && Finishable(s, closing)
    ensures n <= Stage(s) && Finished(PollDone(s, closing, maxRetries, n))
    decreases Stage(s)
  {
    var t := Poll(s, Done, closing, maxRetries).slot;
    PollKeepsAssigned(s, Done, closing, maxRetries);
    if Finished(t) {
      assert PollDone(t, closing, maxRetries, 0) == t;
      n := 1;
    } else {
      var m := FinishableFinishes(t, closing, maxRetries);
      n := m + 1;
    }
  }

  datatype SlotEvent<T> = PollEvent(answer: Response<T>, closing: bool) | PushEvent(frame: T)

  /** The life of one destination: any polls and pushes the scheduler is allowed to make. */
  ghost predicate SlotRun<T(!new)>(states: seq<Slot<T>>, events: seq<SlotEvent<T>>, maxRetries: nat) {
    && |states| == |events| + 1
    && (forall k :: 0 <= k < |events| ==> SlotNext(states[k], events[k], states[k + 1], maxRetries))
  }

  ghost predicate SlotNext<T>(s: Slot<T>, e: SlotEvent<T>, t: Slot<T>, maxRetries: nat) {
    match e
    case PollEvent(answer, closing) =>
      var r := Poll(s, answer, closing, maxRetries);
      r.Polled? && t == r.slot
    case PushEvent(frame) =>
      s.filled < s.capacity && !s.state.Closing? && !s.state.Closed? && t == Push(s, frame)
  }

  lemma NextOf<T(!new)>(states: seq<Slot<T>>, events: seq<SlotEvent<T>>, maxRetries: nat, k: nat)
    requires SlotRun(states, events, maxRetries) && k < |events|
    ensures |states| == |events| + 1 && SlotNext(states[k], events[k], states[k + 1], maxRetries)
  {
  }

  function Change<T>(s: Slot<T>, e: SlotEvent<T>, maxRetries: nat): nat {
    if e.PollEvent? then
      var r := Poll(s, e.answer, e.closing, maxRetries);
      if r.Polled? && r.changed then 1 else 0
    else 0
  }

  /** State changes in the first `n` events. */
  function Changes<T>(states: seq<Slot<T>>, events: seq<SlotEvent<T>>, maxRetries: nat, n: nat): nat
    requires n <= |events| < |states|
  {
    if n == 0 then 0
    else Changes(states, events, maxRetries, n - 1) + Change(states[n - 1], events[n - 1], maxRetries)
  }

  lemma SlotNextBounded<T>(s: Slot<T>, e: SlotEvent<T>, t: Slot<T>, maxRetries: nat)
    requires SlotNext(s, e, t, maxRetries) && SlotInv(s, maxRetries)
    ensures SlotInv(t, maxRetries)
    ensures Change(s, e, maxRetries) + Rank(t, maxRetries) <= Rank(s, maxRetries)
  {
    match e
    case PollEvent(answer, closing) =>
      PollKeepsAssigned(s, answer, closing, maxRetries);
      PollLowersRank(s, answer, closing, maxRetries);
      StuckPoll(s, answer, closing, maxRetries);
    case PushEvent(frame) =>
      PushKeepsInv(s, frame, maxRetries);
  }

  lemma {:induction false} ChangesBounded<T(!new)>(
      states: seq<Slot<T>>, events: seq<SlotEvent<T>>, maxRetries: nat, n: nat)
    requires SlotRun(states, events, maxRetries) && n <= |events| && SlotInv(states[0], maxRetries)
    ensures SlotInv(states[n], maxRetries)
    ensures Changes(states, events, maxRetries, n) + Rank(states[n], maxRetries) <= Rank(states[0], maxRetries)
  {
    hide SlotNext, SlotInv, Rank, Change;
    if n > 0 {
      NextOf(states, events, maxRetries, n - 1);
      ChangesBounded(states, events, maxRetries, n - 1);
      SlotNextBounded(states[n - 1], events[n - 1], states[n], maxRetries);
    }
  }

  lemma RankOfNew<T>(name: nat, capacity: nat, maxRetries: nat)
    ensures Rank<T>(NewSlot(name, capacity, maxRetries > 0), maxRetries) == (maxRetries + 1) * (capacity + 3)
  {
    var size := capacity + 3;
    assert (maxRetries + 1) * size == maxRetries * size + size;
  }

  /** A destination changes state at most (retries + 1) * (capacity + 3) times over its life. */
  lemma SlotWorkBounded<T(!new)>(
      states: seq<Slot<T>>, events: seq<SlotEvent<T>>, name: nat, capacity: nat, maxRetries: nat)
    requires capacity > 0 && SlotRun(states, events, maxRetries)
    requires states[0] == NewSlot(name, capacity, maxRetries > 0)
    ensures Changes(states, events, maxRetries, |events|) <= (maxRetries + 1) * (capacity + 3)
  {
    NewSlotInv<T>(name, capacity, maxRetries);
    RankOfNew<T>(name, capacity, maxRetries);
    ChangesBounded(states, events, maxRetries, |events|);
  }

  // --- retries ---------------------------------------------------------------------------------

  function Error<T>(s: Slot<T>, e: SlotEvent<T>): nat {
    if e.PollEvent? && e.answer.Failed? && Asks(s) then 1 else 0
  }

  /** Errors of the backend among the first `n` events. */
  function Errors<T>(states: seq<Slot<T>>, events: seq<SlotEvent<T>>, n: nat): nat
    requires n <= |events| < |states|
  {
    if n == 0 then 0 else Errors(states, events, n - 1) + Error(states[n - 1], events[n - 1])
  }

  lemma RetryIsError<T>(s: Slot<T>, e: SlotEvent<T>, t: Slot<T>, maxRetries: nat)
    requires SlotNext(s, e, t, maxRetries)
    ensures t.retries == s.retries + Error(s, e)
  {
  }

  lemma {:induction false} RetriesAreErrors<T(!new)>(
      states: seq<Slot<T>>, events: seq<SlotEvent<T>>, maxRetries: nat, n: nat)
    requires SlotRun(states, events, maxRetries) && n <= |events|
    ensures states[n].retries == states[0].retries + Errors(states, events, n)
  {
    if n > 0 {
      hide SlotNext, Error;
      RetriesAreErrors(states, events, maxRetries, n - 1);
      NextOf(states, events, maxRetries, n - 1);
      RetryIsError(states[n - 1], events[n - 1], states[n], maxRetries);
    }
  }

  /** A destination fails exactly when its backend reports one error more than the allowed
      retries, whichever of its operations the errors come from. */
  lemma FailsAfterAllRetries<T(!new)>(
      states: seq<Slot<T>>, events: seq<SlotEvent<T>>, name: nat, capacity: nat, maxRetries: nat,
      answer: Response<T>, closing: bool)
    requires SlotRun(states, events, maxRetries) && states[0] == NewSlot(name, capacity, maxRetries > 0)
    ensures var s := states[|events|];
            Poll(s, answer, closing, maxRetries).Fatal? <==>
              Asks(s) && answer.Failed? && Errors(states, events, |events|) == maxRetries
  {
    RetriesAreErrors(states, events, maxRetries, |events|);
  }

  // --- the attempt log ---------------------------------------------------------------------------

  /** The frames given to the destination by the first `n` events. */
  function Pushed<T>(events: seq<SlotEvent<T>>, n: nat): seq<T>
    requires n <= |events|
  {
    if n == 0 then []
    else Pushed(events, n - 1) + (if events[n - 1].PushEvent? then [events[n - 1].frame] else [])
  }

  lemma {:induction false} PushedIsAssigned<T(!new)>(states: seq<Slot<T>>, events: seq<SlotEvent<T>>,
      maxRetries: nat, n: nat)
    requires SlotRun(states, events, maxRetries) && n <= |events| && SlotInv(states[0], maxRetries)
    requires Assigned(states[0]) == []
    ensures SlotInv(states[n], maxRetries) && Assigned(states[n]) == Pushed(events, n)
  {
    hide Poll, Push, SlotInv, Assigned, SlotRun;
    if n > 0 {
      PushedIsAssigned(states, events, maxRetries, n - 1);
      NextOf(states, events, maxRetries, n - 1);
      var s, e := states[n - 1], events[n - 1];
      match e
      case PollEvent(answer, closing) => PollKeepsAssigned(s, answer, closing, maxRetries);
      case PushEvent(frame) => PushKeepsInv(s, frame, maxRetries);
    }
  }

  /** Main result. Through any pattern of errors while opening, writing or closing: an attempt that
      is being written has accepted exactly the first `written` frames given to the destination;
      when streaming, accepted and retained frames make up all of them; and a closed destination
      has committed every frame it was given, once and in order. */
  lemma AttemptLogIsRight<T(!new)>(states: seq<Slot<T>>, events: seq<SlotEvent<T>>, name: nat, capacity: nat,
      maxRetries: nat)
    requires capacity > 0 && SlotRun(states, events, maxRetries)
    requires states[0] == NewSlot(name, capacity, maxRetries > 0)
    ensures var s, given := states[|events|], Pushed(events, |events|);
            && (s.state.Writing? ==> s.written <= |given| && s.file.contents == given[..s.written])
            && (s.state.Writing? && s.frames.Streaming? ==> s.file.contents + s.frames.queue == given)
            && (s.frames.Replay? && !Finished(s) ==> s.frames.attempt == given)
            && (s.state.Closing? ==> s.file.contents == given)
            && (Finished(s) ==> s.state.output == given)
  {
    NewSlotInv<T>(name, capacity, maxRetries);
    PushedIsAssigned(states, events, maxRetries, |events|);
  }

  // --- acknowledgements --------------------------------------------------------------------------

  /** Successful answers of the backend among the first `n` events, since its last error. */
  function Successes<T>(states: seq<Slot<T>>, events: seq<SlotEvent<T>>, n: nat): nat
    requires n <= |events| < |states|
  {
    if n == 0 || Error(states[n - 1], events[n - 1]) == 1 then 0
    else Successes(states, events, n - 1) + Success(states[n - 1], events[n - 1])
  }

  function Success<T>(s: Slot<T>, e: SlotEvent<T>): nat {
    if e.PollEvent? && e.answer.Done? && Asks(s) then 1 else 0
  }

  /** The successful answers that each stage of an attempt stands for. */
  function Acknowledged<T>(s: Slot<T>): nat {
    match s.state
    case Idle => 0
    case Opening => 0
    case Writing => 1 + s.written
    case Closing => 1 + s.filled
    case Closed(_) => s.filled + 2
  }

  lemma SuccessAcknowledges<T>(s: Slot<T>, e: SlotEvent<T>, t: Slot<T>, maxRetries: nat)
    requires SlotInv(s, maxRetries) && SlotNext(s, e, t, maxRetries)
    ensures Acknowledged(t) == if Error(s, e) == 1 then 0 else Acknowledged(s) + Success(s, e)
  {
  }

  lemma {:induction false} SuccessesAcknowledge<T(!new)>(states: seq<Slot<T>>, events: seq<SlotEvent<T>>,
      maxRetries: nat, n: nat)
    requires SlotRun(states, events, maxRetries) && n <= |events| && SlotInv(states[0], maxRetries)
    requires states[0].state.Idle?
    ensures SlotInv(states[n], maxRetries) && Acknowledged(states[n]) == Successes(states, events, n)
  {
    hide SlotNext, SlotInv, SlotRun, Error, Success, Rank, Change;
    if n > 0 {
      NextOf(states, events, maxRetries, n - 1);
      SuccessesAcknowledge(states, events, maxRetries, n - 1);
      SlotNextBounded(states[n - 1], events[n - 1], states[n], maxRetries);
      SuccessAcknowledges(states[n - 1], events[n - 1], states[n], maxRetries);
    }
  }

  /** A destination counts as complete only once its backend has, since its last error, confirmed
      opening, every frame given to it, and closing; while it is written it has confirmed opening and
      each frame accepted. */
  lemma CompleteIsConfirmed<T(!new)>(states: seq<Slot<T>>, events: seq<SlotEvent<T>>, name: nat, capacity: nat,
      maxRetries: nat)
    requires capacity > 0 && SlotRun(states, events, maxRetries)
    requires states[0] == NewSlot(name, capacity, maxRetries > 0)
    ensures var s, n := states[|events|], Successes(states, events, |events|);
            && (Finished(s) ==> n == |Pushed(events, |events|)| + 2)
            && (s.state.Closing? ==> n == |Pushed(events, |events|)| + 1)
            && (s.state.Writing? ==> n == s.written + 1)
            && (s.state.Opening? ==> n == 0)
  {
    hide SlotRun, Successes;
    NewSlotInv<T>(name, capacity, maxRetries);
    RunStates(states, events, maxRetries);
    PushedIsAssigned(states, events, maxRetries, |events|);
    SuccessesAcknowledge(states, events, maxRetries, |events|);
  }

  lemma RunStates<T(!new)>(states: seq<Slot<T>>, events: seq<SlotEvent<T>>, maxRetries: nat)
    requires SlotRun(states, events, maxRetries)
    ensures |states| == |events| + 1
  {
  }
}
