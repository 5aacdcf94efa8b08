/** The write scheduler and its slots, updated in place. Every private step is proved to perform
    one event of `Writers`, and the recorded events always form a run that leads to the current
    state, so whatever holds of all runs holds of the object after any sequence of calls. */
module WriteSchedulers {
  import opened Naturals
  import opened Segmentation
  import opened WriteSlots
  import opened Writers
  import opened WriteEnds
  import opened BudgetedWriters
  import opened FrameBudgets
  import opened Rings
  import Budgets
  import Clients

  class FileSlot<T> {
    var file: File<T>
    var state: FileState<T>
    var frames: Frames<T>
    var capacity: nat
    var filled: nat
    var written: nat
    var retries: nat

    ghost function View(): Slot<T>
      reads this
    {
      Slot(file, state, frames, capacity, filled, written, retries)
    }

    constructor (name: nat, capacity: nat, replay: bool)
      ensures View() == NewSlot(name, capacity, replay)
    {
      file := File(name, capacity, []);
      state := FileState.Idle;
      frames := Frames.New(replay);
      this.capacity := capacity;
      filled, written, retries := 0, 0, 0;
    }

    predicate Asks()
      reads this
      ensures Asks() == WriteSlots.Asks(View())
    {
      state.Opening? || state.Closing? || (state.Writing? && frames.HasNext(written))
    }

    /** Take over a finished frame; the first one makes the slot openable. */
    method Push(frame: T)
      modifies this
      ensures View() == WriteSlots.Push(old(View()), frame)
    {
      frames := frames.Push(frame);
      filled := filled + 1;
      if filled == 1 {
        state := FileState.Opening;
      }
    }

    /** One state transition or backend poll. `answer` is what the backend says if it is asked. */
    method Poll(answer: Response<T>, closing: bool, maxRetries: nat) returns (fatal: bool, changed: bool, released: nat)
      modifies this
      ensures WriteSlots.Poll(old(View()), answer, closing, maxRetries)
              == if fatal then Fatal else Polled(View(), changed, released)
    {
      var left := [];
      match state {
        case Opening =>
          match answer {
            case Pending => return false, false, 0;
            case Done =>
              file := file.(contents := []);
              state := FileState.Writing;
              return false, true, 0;
            case Failed(junk) => left := junk;
          }
        case Writing =>
          if frames.HasNext(written) {
            match answer {
              case Pending => return false, false, 0;
              case Done =>
                file := file.(contents := file.contents + [frames.Next(written)]);
                written := written + 1;
                released := if frames.Streaming? then 1 else 0;
                frames := frames.Accepted();
                return false, true, released;
              case Failed(junk) => left := junk;
            }
          } else if filled == capacity || closing {
            state := FileState.Closing;
            return false, true, 0;
          } else {
            return false, false, 0;
          }
        case Closing =>
          match answer {
            case Pending => return false, false, 0;
            case Done =>
              state := FileState.Closed(file.contents);
              frames := frames.Clear();
              return false, true, if maxRetries > 0 then capacity else 0;
            case Failed(junk) => left := junk;
          }
        case Idle => return false, false, 0;
        case Closed(_) => return false, false, 0;
      }
      if retries == maxRetries {
        return true, false, 0;
      }
      retries := retries + 1;
      written := 0;
      file := file.(contents := left);
      state := FileState.Opening;
      return false, true, 0;
    }
  }

  /** A backend may answer anything, at any time. */
  method AskBackend<T>() returns (answer: Response<T>)
  {
    answer := *;
  }

  datatype WriteError =
    | Input | BackendError | InputClosed | AdmissionNotReady | ZeroFrameCapacity
    | FrameCapacityExceedsBudget | InvalidPartialFrame | MissingWriteFile | InvalidBudgetRequest

  datatype WriteStatus = WriteStatus(output: Option<nat>, completed: nat, missing: nat)

  datatype WritePoll = Waiting | Report(status: WriteStatus) | Rejected(error: WriteError)

  datatype PopResult<T> = Gone(file: File<T>, output: seq<T>) | NoHead | PopRejected(error: WriteError)

  datatype ClosePoll = Undone | Completed(files: nat) | CloseRejected(error: WriteError)

  datatype FillReport = NoInput | Consumed(output: nat) | Unusable(error: WriteError)

  datatype DriveResult = Settled | SelfWoke | DriveFailed

  ghost function Views<T>(files: seq<FileSlot<T>>): seq<Slot<T>>
    reads files
  {
    seq(|files|, k requires 0 <= k < |files| reads files => files[k].View())
  }

  // --- what calls achieve, on values --------------------------------------------------------------

  function Unfed<T>(w: Writer<T>): Writer<T> {
    w.(files := DropUnused(w.files))
  }

  lemma PartialHasFile<T>(w: Writer<T>)
    requires Inv(w)
    ensures w.partial.Some? ==> w.fill < |w.files|
  {
  }

  /** Closing feeds what the partial frame holds, if anything, and nothing else. */
  ghost predicate Ended<T>(w: Writer<T>, v: Writer<T>) {
    && v.phase.Draining? && v.partial.None? && v.admitted == w.admitted && v.popped == w.popped
    && v.fed == if w.phase.Accepting? && w.partial.Some? && !w.partial.value.empty
                then w.fed + [w.partial.value.value] else w.fed
  }

  lemma CloseEnds<T>(w: Writer<T>)
    requires w.phase.Accepting? && (w.partial.Some? ==> w.fill < |w.files|)
    ensures Ended(w, CloseStep(w))
  {
  }

  /** What beginning to close does, and gives back. */
  lemma CloseReturns<T>(w: Writer<T>)
    requires w.phase.Accepting? && (w.partial.Some? ==> w.fill < |w.files|)
    ensures Clients.WriterMoves(w, BeginClose) && Step(w, BeginClose) == CloseStep(w)
    ensures var v := Unfed(Flush(w.(phase := Draining)));
            && CloseStep(w) == v.(capacity := Min(v.capacity, v.used))
            && Clients.WriterReturns(w, BeginClose) == Some(v.used)
  {
    hide DropUnused, Flush;
  }

  /** Admitting and taking give nothing back. */
  lemma PassingReturns<T>(w: Writer<T>, e: Event<T>)
    requires Enabled(w, e) && (e.PushFile? || e.PopSwap? || e.PopFile?)
    ensures Clients.WriterMoves(w, e) && Clients.WriterReturns(w, e) == None
    ensures Step(w, e) == if e.PushFile? then Admit(w, e.file)
                          else if e.PopSwap? then Admit(TakeHead(w), e.file) else TakeHead(w)
  {
  }

  lemma WindowReturns<T>(w: Writer<T>, target: nat, maxActive: nat)
    requires target > 0 && maxActive > 0
    ensures var e := Event<T>.SetWindow(target, maxActive);
            && Clients.WriterMoves(w, e) && Step(w, e) == WindowStep(w, target, maxActive)
            && Clients.WriterReturns(w, e) == Some(Min(w.capacity, Max(target, w.used)))
  {
  }

  lemma EndedSelf<T>(w: Writer<T>)
    requires Inv(w)
    ensures w.phase.Draining? ==> Ended(w, w)
  {
  }

  lemma EndedSince<T>(u: Writer<T>, w: Writer<T>, v: Writer<T>)
    requires Ended(u, w) && Kept(w, v)
    ensures Ended(u, v)
  {
  }

  lemma KeptPhase<T>(w: Writer<T>, v: Writer<T>)
    requires Kept(w, v)
    ensures v.phase == w.phase
  {
  }

  lemma ClosePhase<T>(w: Writer<T>)
    requires w.partial.Some? ==> w.fill < |w.files|
    ensures CloseStep(w).phase.Draining?
  {
  }

  ghost predicate NotPolledAfter<T>(events: seq<Event<T>>, k: nat, i: nat) {
    forall j :: k < j < |events| && events[j].PollSlot? ==> events[j].index != i
  }

  /** The last thing the backend of slot `i` was asked by the events from `from` on is pending. */
  ghost predicate Awaits<T>(events: seq<Event<T>>, from: nat, i: nat) {
    exists k :: from <= k < |events| && events[k] == PollSlot(i, Pending) && NotPolledAfter(events, k, i)
  }

  /** Why a writer waits: its permit is queued, its partial frame was just found pending, or a slot
      that asks its backend has a pending answer outstanding from this very call. */
  ghost predicate HasCause<T>(w: Writer<T>, events: seq<Event<T>>, from: nat, queued: bool) {
    || queued
    || (from < |events| && events[|events| - 1] == Event.Fill(FillPending))
    || exists i :: 0 <= i < |w.files| && Asks(w.files[i]) && Awaits(events, from, i)
  }

  /** Every slot that still asks its backend for something was told to wait since event `from`. */
  ghost predicate PendingSince<T>(w: Writer<T>, events: seq<Event<T>>, from: nat) {
    && from <= |events|
    && forall i :: 0 <= i < |w.files| && Asks(w.files[i]) ==> Awaits(events, from, i)
  }

  /** No lost wakeup: a closing writer with nothing to hand out waits for its head's backend. */
  lemma DrainHasCause<T>(w: Writer<T>, events: seq<Event<T>>, from: nat)
    requires Inv(w) && w.phase.Draining? && Stuck(w) && PendingSince(w, events, from)
    requires w.files != [] && !HeadDone(w)
    ensures HasCause(w, events, from, false)
  {
    DrainingWriterWaitsForHead(w);
    assert Awaits(events, from, 0);
  }

  /** A closing writer does not stop without a result while its backends succeed. */
  lemma SuccessSettlesNothing<T>(w: Writer<T>, events: seq<Event<T>>, from: nat)
    requires Inv(w) && w.phase.Draining? && Stuck(w) && PendingSince(w, events, from)
    requires w.files != [] && !HeadDone(w)
    ensures !Succeeds(events, from)
  {
    DrainingWriterWaitsForHead(w);
    assert Awaits(events, from, 0);
  }

  lemma NearerSeen<T>(u: Writer<T>, v: Writer<T>)
    ensures forall n :: Nearer(u, v, n) ==> v.phase.Draining? && Nearer(u, v, 0)
  {
  }

  lemma SuccessIsNearer<T>(init: Writer<T>, u: Writer<T>, h: seq<Event<T>>, w: Writer<T>,
                           events: seq<Event<T>>, v: Writer<T>)
    requires Inv(init) && h <= events && Succeeds(events, |h|)
    requires Run(init, h) == Some(w) && Run(init, events) == Some(v)
    requires w.phase.Draining? && |w.files| <= |u.files| && Effort(w) <= Effort(u)
    ensures Nearer(u, v, Work(init, events, |h|))
  {
    hide Inv, Run, Effort;
    assert events[..|h|] == h;
    SuccessfulClosingEnds(init, events, |h|);
  }

  /** Since event `from` the writer was driven as far as one call may: either all its state changes were
      used up, or at some point nothing could move, all that was still asked was pending, and no
      backend has been polled since. */
  ghost predicate WasDriven<T>(init: Writer<T>, events: seq<Event<T>>, from: nat) {
    || Work(init, events, from) == MAX_POLL_OPS
    || exists m :: from <= m <= |events| && RestedAt(init, events, from, m) && NoPolls(events, m)
  }

  ghost predicate RestedAt<T>(init: Writer<T>, events: seq<Event<T>>, from: nat, m: nat)
    requires m <= |events|
  {
    var w := Run(init, events[..m]);
    w.Some? && Stuck(w.value) && PendingSince(w.value, events[..m], from)
  }

  lemma DrivenNow<T>(init: Writer<T>, events: seq<Event<T>>, from: nat, w: Writer<T>)
    requires Run(init, events) == Some(w) && from <= |events|
    ensures Stuck(w) && PendingSince(w, events, from) ==> WasDriven(init, events, from)
    ensures Work(init, events, from) == MAX_POLL_OPS ==> WasDriven(init, events, from)
  {
    assert events[..|events|] == events;
    if Stuck(w) && PendingSince(w, events, from) {
      assert RestedAt(init, events, from, |events|);
    }
  }

  /** Events that poll nothing, before or after, do not change that. */
  lemma DrivenStays<T>(init: Writer<T>, h: seq<Event<T>>, events: seq<Event<T>>, from: nat)
    requires WasDriven(init, h, from) && from <= |h| && h <= events && NoPolls(events, |h|)
    ensures WasDriven(init, events, from)
  {
    hide Run, Stuck, PendingSince, Work;
    QuietWork(init, h, events, from);
    if Work(init, h, from) != MAX_POLL_OPS {
      var m :| from <= m <= |h| && RestedAt(init, h, from, m) && NoPolls(h, m);
      assert events[..m] == h[..m];
      assert RestedAt(init, events, from, m);
      forall k | m <= k < |events|
        ensures !events[k].PollSlot?
      {
        if k < |h| {
          assert events[k] == h[k];
        }
      }
    }
  }

  lemma DrivenEarlier<T>(init: Writer<T>, h: seq<Event<T>>, events: seq<Event<T>>, from: nat)
    requires WasDriven(init, events, |h|) && from <= |h| && h <= events && NoPolls(h, from)
    ensures WasDriven(init, events, from)
  {
    hide Run, Stuck, PendingSince, Work;
    LateWork(init, h, events, from);
    if Work(init, events, |h|) != MAX_POLL_OPS {
      var m :| |h| <= m <= |events| && RestedAt(init, events, |h|, m) && NoPolls(events, m);
      PendingEarlier(Run(init, events[..m]).value, events[..m], |h|, from);
      assert RestedAt(init, events, from, m);
    }
  }

  /** What driving adds to having entered the closing phase. */
  lemma DrivenSeen<T>(init: Writer<T>, u: Writer<T>, from: nat, h: seq<Event<T>>, w: Writer<T>, events: seq<Event<T>>,
                      v: Writer<T>, driven: DriveResult)
    requires Inv(init) && from <= |h| && h <= events && NoPolls(h, from)
    requires Run(init, h) == Some(w) && Run(init, events) == Some(v)
    requires w.phase.Draining? && Ended(u, w) && |w.files| <= |u.files| && Effort(w) <= Effort(u)
    requires if v.phase.Broken? then Failure(events, |h|) else Kept(w, v)
    requires driven.SelfWoke? ==> Work(init, events, |h|) == MAX_POLL_OPS
    requires driven.Settled? ==> Stuck(v) && PendingSince(v, events, |h|)
    ensures Failure(events, |h|) ==> Failure(events, from)
    ensures !v.phase.Broken? ==> v.phase.Draining? && Ended(u, v)
    ensures driven.Settled? ==> PendingSince(v, events, from)
    ensures Work(init, events, from) == Work(init, events, |h|)
    ensures Succeeds(events, from) ==> Nearer(u, v, if driven.SelfWoke? then MAX_POLL_OPS else 0)
  {
    hide Inv, Run, Failure, Work, Stuck, PendingSince, Effort;
    FailureStays(events, |h|, events, from);
    LateWork(init, h, events, from);
    if Succeeds(events, from) {
      SuccessIsNearer(init, u, h, w, events, v);
    }
    if !v.phase.Broken? {
      EndedSince(u, w, v);
    }
    if driven.Settled? {
      PendingEarlier(v, events, |h|, from);
    }
  }

  lemma HeadIsClear<T>(w: Writer<T>)
    requires Inv(w) && !w.phase.Broken? && HeadDone(w)
    ensures w.files[0].frames == Frames.New(w.maxRetries > 0)
  {
    assert FileOk(w, 0);
  }

  /** Whether a frame fits does not depend on the grant. */
  lemma StillFits<T>(w: Writer<T>, v: Writer<T>)
    requires w.fill < |w.files| && v == w.(capacity := v.capacity)
    ensures (Fits(v) <==> Fits(w)) && Needed(v) == Needed(w)
  {
  }

  lemma SpoiledSeen<T(!new)>(empty: Partial<T>, input: Partial<T> -> FillResult<T>, given: Partial<T>, r: FillReport)
    requires FillReported(input(given), r)
    ensures r.Unusable? ==> Spoils(empty, input)
  {
    if r.Unusable? {
      assert Spoiled(input(given));
    }
  }

  /** What preparing a partial frame achieves: one exists, or the budget has been asked for it, or
      nothing changed because there is no file or no room for it. */
  ghost predicate Prepared<T>(w: Writer<T>, empty: Partial<T>, v: Writer<T>, waiting: bool, error: Option<WriteError>) {
    if error.Some? then
      error.value.InvalidPartialFrame? && v.phase.Broken? && w.partial.None? && (!empty.empty || empty.complete)
    else
      && v == w.(partial := v.partial, used := v.used, capacity := v.capacity) && v.phase.Accepting?
      && (w.partial.Some? ==> v == w)
      && (w.partial.None? && v.partial.Some? ==> v.partial == Some(empty) && empty.empty && !empty.complete)
      && (v.partial.None? ==> waiting || (v == w && (w.fill < |w.files| ==> !Fits(w))))
  }

  /** What supplying does from state `w`: without input, either the input was found pending or no
      partial frame could be prepared. */
  ghost predicate Supplied<T>(w: Writer<T>, from: nat, empty: Partial<T>, v: Writer<T>, r: FillReport,
      queued: bool, events: seq<Event<T>>) {
    match r
    case Unusable(e) => v.phase.Broken? && e in {Input, InvalidPartialFrame}
    case Consumed(_) => v.phase.Accepting?
    case NoInput =>
      && v == w.(partial := v.partial, used := v.used, capacity := v.capacity) && v.phase.Accepting?
      && NoPolls(events, from)
      && ((from < |events| && events[|events| - 1] == Event.Fill(FillPending))
          || (v.partial.None? && Prepared(w, empty, v, queued, None)))
  }

  function Answered(r: WritePoll): Option<nat> {
    if r.Report? then r.status.output else None
  }

  lemma AnswerSeen(r: WritePoll)
    ensures r.Report? ==> Answered(r) == r.status.output
    ensures !r.Report? ==> Answered(r) == None
  {
  }

  lemma TakenSeen(r: FillReport)
    ensures Taken(r) == if r.Consumed? then Some(r.output) else None
  {
  }

  function Taken(r: FillReport): Option<nat> {
    if r.Consumed? then Some(r.output) else None
  }

  /** What one call does with the input: it is offered once to the partial frame, an existing or a
      new one; a frame that becomes complete joins the fed frames, otherwise it stays partial. */
  ghost predicate Absorbed<T>(w: Writer<T>, empty: Partial<T>, input: Partial<T> -> FillResult<T>, v: Writer<T>,
      output: Option<nat>) {
    && v.phase == w.phase && v.admitted == w.admitted && v.popped == w.popped && |v.files| == |w.files|
    && v.maxRetries == w.maxRetries && v.target == w.target && v.maxActive == w.maxActive
    && (w.partial.None? && (output.Some? || v.partial.Some?) ==> empty.empty && !empty.complete)
    && match output
       case None => v.fed == w.fed && (v.partial == w.partial || (w.partial.None? && v.partial == Some(empty)))
       case Some(n) =>
         var result := input(if w.partial.Some? then w.partial.value else empty);
         && result.FillDone? && result.output == n
         && if result.after.complete then v.partial.None? && v.fed == w.fed + [result.after.value]
            else v.partial == Some(result.after) && v.fed == w.fed
  }

  lemma AbsorbedNothing<T>(w: Writer<T>, empty: Partial<T>, v: Writer<T>, waiting: bool,
      input: Partial<T> -> FillResult<T>)
    ensures Prepared(w, empty, v, waiting, None) && w.phase.Accepting? ==> Absorbed(w, empty, input, v, None)
  {
  }

  /** What no input and no allocator may do. */
  ghost predicate Spoils<T(!new)>(empty: Partial<T>, input: Partial<T> -> FillResult<T>) {
    !empty.empty || empty.complete || exists p :: Spoiled(input(p))
  }

  predicate Spoiled<T>(result: FillResult<T>) {
    result.FillFailed? || (result.FillDone? && result.after.complete && result.after.empty)
  }

  predicate FillReported<T>(result: FillResult<T>, r: FillReport) {
    match result
    case FillPending => r == NoInput
    case FillFailed => r == Unusable(Input)
    case FillDone(after, output) =>
      r == if after.complete && after.empty then Unusable(InvalidPartialFrame) else Consumed(output)
  }

  lemma AbsorbedOnce<T>(w: Writer<T>, empty: Partial<T>, v: Writer<T>, input: Partial<T> -> FillResult<T>,
                        r: FillReport)
    requires Absorbed(w, empty, input, v, None) && v.phase.Accepting? && v.partial.Some? && v.fill < |v.files|
    requires FillReported(input(v.partial.value), r)
    ensures !r.Unusable? ==> Absorbed(w, empty, input, FillStep(v, input(v.partial.value)), Taken(r))
  {
  }

  lemma AbsorbedSince<T>(u: Writer<T>, w: Writer<T>, empty: Partial<T>, input: Partial<T> -> FillResult<T>,
      v: Writer<T>, output: Option<nat>)
    requires Kept(u, w)
    ensures Absorbed(w, empty, input, v, output) ==> Absorbed(u, empty, input, v, output)
  {
  }

  lemma SuppliedKeeps<T>(w: Writer<T>, from: nat, empty: Partial<T>, v: Writer<T>, r: FillReport, queued: bool,
      events: seq<Event<T>>)
    requires Supplied(w, from, empty, v, r, queued, events)
    ensures r.Unusable? ==> v.phase.Broken? && r.error in {Input, InvalidPartialFrame}
    ensures r.NoInput? ==> v.fed == w.fed && v.files == w.files
    ensures !r.Unusable? ==> v.phase.Accepting?
  {
  }

  lemma AwaitsStays<T>(events: seq<Event<T>>, later: seq<Event<T>>, from: nat, i: nat)
    requires events <= later && Awaits(events, from, i)
    requires forall k :: |events| <= k < |later| && later[k].PollSlot? ==> later[k].index != i
    ensures Awaits(later, from, i)
  {
    var k :| from <= k < |events| && events[k] == PollSlot(i, Pending) && NotPolledAfter(events, k, i);
    assert later[k] == events[k] && NotPolledAfter(later, k, i);
  }

  /** The input was not ready for some partial frame. */
  ghost predicate Hungry<T(!new)>(input: Partial<T> -> FillResult<T>) {
    exists p :: input(p).FillPending?
  }

  lemma HungryNow<T(!new)>(input: Partial<T> -> FillResult<T>, given: Partial<T>, r: FillReport)
    requires FillReported(input(given), r)
    ensures r.NoInput? ==> Hungry(input)
  {
  }

  /** The last event filled the then partial frame from the input, which consumed `output`. */
  ghost predicate Delivered<T>(init: Writer<T>, events: seq<Event<T>>, input: Partial<T> -> FillResult<T>,
                               output: nat) {
    && events != []
    && var w := Run(init, events[..|events| - 1]);
       w.Some? && w.value.partial.Some?
       && var result := input(w.value.partial.value);
          events[|events| - 1] == Event.Fill(result) && result.FillDone? && result.output == output
  }

  lemma DeliveredNow<T>(init: Writer<T>, events: seq<Event<T>>, w: Writer<T>, input: Partial<T> -> FillResult<T>,
      output: nat)
    requires Run(init, events) == Some(w) && w.partial.Some?
    requires FillReported(input(w.partial.value), Consumed(output))
    ensures Delivered(init, events + [Event.Fill(input(w.partial.value))], input, output)
  {
    assert (events + [Event.Fill(input(w.partial.value))])[..|events|] == events;
  }

  lemma FillEffect<T>(w: Writer<T>, result: FillResult<T>)
    requires w.partial.Some? && w.fill < |w.files| && w.phase.Accepting?
    ensures var v := FillStep(w, result);
            && (result.FillPending? ==> v == w)
            && (v.phase.Broken? || v.phase.Accepting?)
            && (v.phase.Broken? <==>
                  result.FillFailed? || (result.FillDone? && result.after.complete && result.after.empty))
  {
  }

  lemma PositiveWindow<T>(w: Writer<T>)
    requires Inv(w)
    ensures w.maxActive > 0
  {
  }

  lemma PreparedKeeps<T>(w: Writer<T>, empty: Partial<T>, v: Writer<T>, waiting: bool, error: Option<WriteError>)
    requires Prepared(w, empty, v, waiting, error)
    ensures error.Some? ==> error.value.InvalidPartialFrame? && v.phase.Broken?
    ensures error.None? ==> v == w.(partial := v.partial, used := v.used, capacity := v.capacity) && v.phase.Accepting?
  {
  }

  /** No lost wakeup: a writer that stopped without consuming or reporting anything has a cause. */
  lemma StallHasCause<T>(w: Writer<T>, empty: Partial<T>, v: Writer<T>, h: seq<Event<T>>, from: nat, queued: bool,
                         later: seq<Event<T>>)
    requires Inv(w) && w.phase.Accepting? && Stuck(w) && PendingSince(w, h, from)
    requires Supplied(w, |h|, empty, v, NoInput, queued, later)
    requires !HeadDone(v) && v.files != [] && h <= later
    ensures HasCause(v, later, from, queued)
  {
    if !(|h| < |later| && later[|later| - 1] == Event.Fill(FillPending)) && !queued {
      var i := FullWriterWaitsForBackend(w);
      AwaitsStays(h, later, from, i);
    }
  }

  /** The next frame may not be started: there is no destination for it, or it would exceed the window
      or, with all other frames of its destination, the budget. */
  predicate NoRoom<T>(w: Writer<T>) {
    w.fill < |w.files| ==>
      if w.maxRetries == 0 then w.used >= Min(w.total, w.target)
      else w.files[w.fill].filled == 0 && w.used + w.files[w.fill].capacity > w.total
  }

  lemma NoRoomSeen<T>(w: Writer<T>, empty: Partial<T>, v: Writer<T>, queued: bool)
    requires Prepared(w, empty, v, queued, None) && v.partial.None? && !queued
    ensures NoRoom(v)
  {
  }

  /** While backends succeed, a writer only waits for its budget or its input. */
  lemma StallNeedsPending<T>(w: Writer<T>, empty: Partial<T>, v: Writer<T>, h: seq<Event<T>>, from: nat,
                             later: seq<Event<T>>)
    requires Inv(w) && w.phase.Accepting? && Stuck(w) && PendingSince(w, h, from) && h <= later
    requires v.partial.None? && Prepared(w, empty, v, false, None) && !HeadDone(v) && v.files != []
    ensures !Succeeds(later, from)
  {
    var i := FullWriterWaitsForBackend(w);
    var k :| from <= k < |h| && h[k] == PollSlot(i, Pending) && NotPolledAfter(h, k, i);
    assert later[k] == h[k];
  }

  lemma FillStarts<T>(w: Writer<T>)
    requires Inv(w) && w.partial.Some?
    ensures w.fill < |w.files| && w.phase.Accepting?
  {
  }

  lemma NoWork<T>(w: Writer<T>, events: seq<Event<T>>)
    ensures Work(w, events, |events|) == 0
  {
  }

  lemma NoFiles<T>(w: Writer<T>, events: seq<Event<T>>)
    ensures Kept(w, w)
    ensures w.files == [] ==> Stuck(w) && PendingSince(w, events, |events|)
  {
  }

  lemma KeptTrans<T>(u: Writer<T>, v: Writer<T>, w: Writer<T>)
    requires Kept(u, v) && Kept(v, w)
    ensures Kept(u, w)
  {
  }

  lemma PendingEarlier<T>(w: Writer<T>, events: seq<Event<T>>, from: nat, earlier: nat)
    requires PendingSince(w, events, from) && earlier <= from
    ensures PendingSince(w, events, earlier)
  {
    forall i | 0 <= i < |w.files| && Asks(w.files[i])
      ensures Awaits(events, earlier, i)
    {
      var k :| from <= k < |events| && events[k] == PollSlot(i, Pending) && NotPolledAfter(events, k, i);
    }
  }

  /** A pass of `n` turns led from `w0` after events `h0` to `w` after `h`. */
  ghost predicate PassInv<T>(init: Writer<T>, w0: Writer<T>, h0: seq<Event<T>>, w: Writer<T>, h: seq<Event<T>>,
                             start: nat, remaining: nat, left: nat, progressed: bool, first: nat, n: nat)
  {
    && h0 <= h && start <= |h0| && Run(init, h) == Some(w) && !w.phase.Broken?
    && Kept(w0, w)
    && left + Work(init, h, start) == remaining + Work(init, h0, start)
    && left <= remaining && (progressed <==> left < remaining)
    && n <= |w.files| && first < |w.files|
    && (!progressed ==> w == w0 && forall i :: 0 <= i < |w.files| && Visited(i, first, n, |w.files|) ==>
         StuckAt(w, i) && (Asks(w.files[i]) ==> Awaits(h, |h0|, i)))
  }

  lemma PassStart<T>(init: Writer<T>, w: Writer<T>, h: seq<Event<T>>, start: nat, remaining: nat, first: nat)
    requires start <= |h| && Run(init, h) == Some(w) && !w.phase.Broken? && first < |w.files|
    ensures PassInv(init, w, h, w, h, start, remaining, remaining, false, first, 0)
    ensures RingAt(first, 0, |w.files|) == first
  {
  }

  /** What one turn did: event `e` polled slot `index` and either broke the writer, changed the
      slot, or changed nothing at all because the slot is stuck. */
  ghost predicate Turned<T>(w: Writer<T>, e: Event<T>, index: nat, v: Writer<T>, fatal: bool, changed: bool) {
    && index < |w.files| && e.PollSlot? && e.index == index
    && (fatal <==> v.phase.Broken?)
    && (if fatal then FailureAt(e) else Kept(w, v))
    && Progress(Some(w), e) == (if !fatal && changed then 1 else 0)
    && (!fatal && !changed ==>
         v == w && StuckAt(w, index) && (Asks(w.files[index]) ==> e == PollSlot(index, Pending)))
  }

  lemma FatalFails<T>(s: Slot<T>, answer: Response<T>, closing: bool, maxRetries: nat)
    ensures Poll(s, answer, closing, maxRetries).Fatal? ==> answer.Failed?
  {
  }

  /** A turn that changes nothing leaves the pending answers of the slots before it outstanding. */
  lemma IdleTurn<T>(w: Writer<T>, h0: seq<Event<T>>, h: seq<Event<T>>, first: nat, n: nat, index: nat,
                    after: seq<Event<T>>)
    requires h0 <= h && |after| == |h| + 1 && after[..|h|] == h && Turned(w, after[|h|], index, w, false, false)
    requires after[|h|].PollSlot? && after[|h|].index == index
    requires n < |w.files| && first < |w.files| && index == RingAt(first, n, |w.files|)
    requires forall i :: 0 <= i < |w.files| && Visited(i, first, n, |w.files|) ==>
               StuckAt(w, i) && (Asks(w.files[i]) ==> Awaits(h, |h0|, i))
    ensures forall i :: 0 <= i < |w.files| && Visited(i, first, n + 1, |w.files|) ==>
              StuckAt(w, i) && (Asks(w.files[i]) ==> Awaits(after, |h0|, i))
  {
    hide StuckAt, Kept, Progress;
    forall i | 0 <= i < |w.files| && Visited(i, first, n + 1, |w.files|)
      ensures StuckAt(w, i) && (Asks(w.files[i]) ==> Awaits(after, |h0|, i))
    {
      if i != index {
        assert Visited(i, first, n, |w.files|);
        if Asks(w.files[i]) {
          AwaitsStays(h, after, |h0|, i);
        }
      } else if Asks(w.files[i]) {
        assert after[|h|] == PollSlot(i, Pending) && NotPolledAfter(after, |h|, i);
      }
    }
  }

  lemma PassTurn<T>(init: Writer<T>, w0: Writer<T>, h0: seq<Event<T>>, w: Writer<T>, h: seq<Event<T>>,
                    start: nat, remaining: nat, left: nat, progressed: bool, first: nat, n: nat,
                    index: nat, v: Writer<T>, after: seq<Event<T>>, fatal: bool, changed: bool)
    requires PassInv(init, w0, h0, w, h, start, remaining, left, progressed, first, n)
    requires n < |w.files| && index == RingAt(first, n, |w.files|) && left > 0
    requires |after| == |h| + 1 && after[..|h|] == h && Turned(w, after[|h|], index, v, fatal, changed)
    requires Run(init, after) == Some(v)
    ensures h0 <= after && left + Work(init, after, start) + (if fatal || !changed then 0 else -1)
                           == remaining + Work(init, h0, start)
    ensures !fatal ==> PassInv(init, w0, h0, v, after, start, remaining, if changed then left - 1 else left,
                               progressed || changed, first, n + 1)
    ensures fatal ==> Failure(after, |h0|)
  {
    assert after == h + [after[|h|]];
    WorkAppend(init, h, start, after[|h|]);
    if !fatal && !changed && !progressed {
      IdleTurn(w, h0, h, first, n, index, after);
    }
  }

  lemma PassEnd<T>(init: Writer<T>, w0: Writer<T>, h0: seq<Event<T>>, w: Writer<T>, h: seq<Event<T>>,
                   start: nat, remaining: nat, left: nat, progressed: bool, first: nat, n: nat)
    requires PassInv(init, w0, h0, w, h, start, remaining, left, progressed, first, n)
    requires n == |w.files| || left == 0
    ensures h0 <= h && Kept(w0, w) && left + Work(init, h, start) == remaining + Work(init, h0, start)
    ensures left <= remaining && (progressed ==> left < remaining)
    ensures !progressed && remaining > 0 ==> Stuck(w) && PendingSince(w, h, |h0|)
  {
    if !progressed && remaining > 0 {
      forall i | 0 <= i < |w.files|
        ensures Visited(i, first, n, |w.files|)
      {
      }
    }
  }

  /** One slot was polled: which event happened, and what its poll reported. */
  ghost predicate Advanced<T>(w: Writer<T>, before: seq<Event<T>>, index: nat, v: Writer<T>, after: seq<Event<T>>,
                              fatal: bool, changed: bool)
  {
    && |after| == |before| + 1 && after[..|before|] == before
    && var e := after[|before|];
       && e.PollSlot? && e.index == index && Enabled(w, e) && v == PollStep(w, index, e.answer)
       && var r := Poll(w.files[index], e.answer, w.phase.Draining?, w.maxRetries);
          (fatal <==> r.Fatal?) && (!fatal ==> changed == r.changed)
  }

  /** The slots polled by the events from position `from` on, in order. */
  function Turns<T>(events: seq<Event<T>>, from: nat): seq<nat>
    decreases |events|
  {
    if |events| <= from then []
    else
      var last := events[|events| - 1];
      Turns(events[..|events| - 1], from) + if last.PollSlot? then [last.index] else []
  }

  lemma TurnsOn<T>(events: seq<Event<T>>, from: nat, after: seq<Event<T>>, w: Writer<T>, index: nat, v: Writer<T>,
                   fatal: bool, changed: bool)
    requires from <= |events| && |after| == |events| + 1 && after[..|events|] == events
    requires Turned(w, after[|events|], index, v, fatal, changed)
    ensures Turns(after, from) == Turns(events, from) + [index]
  {
    hide StuckAt, Kept, Progress;
  }

  lemma TurnsStart<T>(events: seq<Event<T>>, first: nat, count: nat)
    ensures count > 0 ==> Rotates(Turns(events, |events|), first, first, count)
  {
  }

  /** Events that poll nothing take no turn. */
  lemma {:induction false} QuietTurns<T>(h: seq<Event<T>>, events: seq<Event<T>>, from: nat)
    requires from <= |h| && h <= events && NoPolls(events, |h|)
    ensures Turns(events, from) == Turns(h, from)
    decreases |events|
  {
    if |h| < |events| {
      assert events[..|events| - 1] + [events[|events| - 1]] == events;
      QuietTurns(h, events[..|events| - 1], from);
    } else {
      assert h == events;
    }
  }

  lemma {:induction false} LateTurns<T>(h: seq<Event<T>>, events: seq<Event<T>>, from: nat)
    requires from <= |h| && h <= events && NoPolls(h, from)
    ensures Turns(events, from) == Turns(events, |h|)
    decreases |events|
  {
    if |h| < |events| {
      assert events[..|events| - 1] + [events[|events| - 1]] == events;
      LateTurns(h, events[..|events| - 1], from);
    } else {
      assert h == events && h[..from] <= h;
      QuietTurns(h[..from], h, from);
    }
  }

  /** Popping leaves the files behind the head; swapping puts the new one after them. */
  lemma PopSeen<T>(w: Writer<T>, file: Descriptor)
    requires HeadDone(w)
    ensures Writers.TakeHead(w).files == w.files[1..]
    ensures Admit(Writers.TakeHead(w), file).files == w.files[1..] + [Opened(w, file)]
  {
  }

  class WriteScheduler<T(!new)> {
    const maxRetries: nat
    const permit: FramePermit
    var target: nat
    var maxActive: nat
    var files: seq<FileSlot<T>>
    var partial: Option<Partial<T>>
    var used: nat
    var fillIndex: nat
    var pollCursor: nat
    var phase: Phase
    /** Whether a task waits to be woken by a call, and how often one was. */
    var registered: bool
    ghost var wakes: nat
    ghost var fed: seq<T>
    ghost var admitted: seq<Descriptor>
    ghost var popped: seq<Popped<T>>
    ghost const initial: Writer<T>
    ghost var history: seq<Event<T>>

    ghost function View(): Writer<T>
      reads this, files, permit
    {
      Writer(maxRetries, permit.budget.total, target, maxActive, Views(files), partial, permit.capacity,
             used, fillIndex, phase, fed, admitted, popped)
    }

    /** The scheduler with the budget it draws on. */
    ghost function Here(): Clients.Share<T>
      reads this, files, permit, permit.budget, permit.budget.permits, permit.budget.Cells()
    {
      Clients.Share(permit.budget.View(), Clients.Writer(View()))
    }

    ghost predicate Wired()
      reads this, files, permit, permit.budget, permit.budget.permits, permit.budget.Cells()
    {
      && permit.Valid()
      && (forall i, j :: 0 <= i < j < |files| ==> files[i] != files[j])
    }

    /** The object is the outcome of a run of the writer machine, and agrees with its permit. */
    ghost predicate Valid()
      reads this, files, permit, permit.request, permit.budget, permit.budget.permits, permit.budget.Cells()
    {
      && Wired()
      && Inv(initial) && Run(initial, history) == Some(View())
      && Coupled(View(), permit.View())
    }

    constructor (permit: FramePermit, maxRetries: nat, target: nat, maxActive: nat)
      requires permit.capacity == 0
      ensures this.permit == permit && files == [] && history == [] && pollCursor == 0
      ensures View() == initial == Init(maxRetries, permit.budget.total, target, maxActive)
    {
      this.maxRetries := maxRetries;
      this.permit := permit;
      this.target := target;
      this.maxActive := maxActive;
      files, partial, used, fillIndex, pollCursor, phase := [], None, 0, 0, 0, Accepting;
      registered, wakes := false, 0;
      fed, admitted, popped := [], [], [];
      initial := Init(maxRetries, permit.budget.total, target, maxActive);
      history := [];
    }

    lemma StartIsValid()
      requires permit.Valid() && permit.View() == Budgets.NEW_PERMIT && files == [] && history == []
      requires View() == initial == Init(maxRetries, permit.budget.total, target, maxActive)
      requires permit.budget.total > 0 && target > 0 && maxActive > 0
      ensures Valid()
    {
      InitInv<T>(maxRetries, permit.budget.total, target, maxActive);
    }

    /** A scheduler over `budget`, unless the window or the budget is empty. */
    static method New(budget: FrameBudget, maxRetries: nat, target: nat, maxActive: nat)
      returns (r: Option<WriteScheduler<T>>)
      requires budget.Valid()
      modifies budget`permits
      ensures r.None? <==> target == 0 || maxActive == 0 || budget.total == 0
      ensures r.Some? ==> r.value.Valid() && fresh(r.value) && fresh(r.value.permit) && r.value.permit.budget == budget
      ensures r.Some? ==> r.value.View() == Init(maxRetries, budget.total, target, maxActive) && r.value.files == []
      ensures r.Some? ==> r.value.initial == r.value.View() && r.value.history == [] && r.value.pollCursor == 0
      ensures r.Some? ==> budget.View() == Budgets.Create(old(budget.View()))
      ensures r.None? ==> budget.permits == old(budget.permits)
      ensures r.Some? ==> fresh(r.value.permit.request) && budget.permits == old(budget.permits) + [r.value.permit]
    {
      hide WriteScheduler.Valid, FramePermit.Valid, Budgets.Create;
      if target == 0 || maxActive == 0 || budget.total == 0 {
        return None;
      }
      var permit := budget.NewPermit();
      label created:
      var writer := new WriteScheduler(permit, maxRetries, target, maxActive);
      permit.Undisturbed@created();
      writer.StartIsValid();
      return Some(writer);
    }

    lemma Reachable()
      requires Valid()
      ensures Inv(View()) && Run(initial, history) == Some(View())
      ensures |View().files| == |files| && View().phase == phase
      ensures Wired() && Inv(initial) && Coupled(View(), permit.View())
      ensures used <= permit.capacity <= permit.budget.total && permit.request in permit.budget.Cells()
      ensures Budgets.Usable(permit.budget.View(), permit.request.id)
    {
      EveryRunKeepsInv(initial, history);
    }

    /** One event has happened, with the budget operation that belongs to it. */
    twostate lemma Made(new e: Event<T>)
      requires old(Valid()) && Wired() && history == old(history) + [e]
      requires Clients.WriterMoves(old(View()), e) && View() == Step(old(View()), e)
      requires permit.GaveBack(Clients.WriterReturns(old(View()), e))
      ensures Valid() && Clients.Leads(permit.request.id, old(Here()), Here())
    {
      hide Clients.WriterReturns, Step, Clients.Leads, Budgets.Shrink, Inv, Coupled, Run, Budgets.Inv;
      EveryRunKeepsInv(initial, old(history));
      RunAppend(initial, old(history), e);
      Clients.WriterCouples(old(View()), old(permit.View()), e);
      Clients.WriteLeads(permit.request.id, old(permit.budget.View()), old(View()), e, permit.budget.View());
    }

    /** Wake the task that waits, if any. */
    method Wake()
      requires Wired()
      modifies this`registered, this`wakes
      ensures Wired() && View() == old(View()) && permit.GaveBack(None)
      ensures !registered && wakes == old(wakes) + (if old(registered) then 1 else 0)
    {
      hide FramePermit.Valid;
      if registered {
        registered := false;
        wakes := wakes + 1;
      }
      permit.Undisturbed();
    }

    method Fail()
      requires Wired()
      modifies this`phase, this`files, this`partial, this`used, this`registered, this`wakes
      modifies permit`capacity, permit.budget`available, permit.budget`waiters, permit.budget.Cells()
      ensures Wired() && View() == Writers.Fail(old(View())) && permit.GaveBack(Some(0))
      ensures !registered && wakes == old(wakes) + (if old(registered) then 1 else 0)
    {
      hide Wired, FramePermit.Valid, FrameBudget.View, Budgets.Returned;
      DropAll();
      ShrinkGrantTo(0);
      Wake();
    }

    method DropAll()
      requires Wired()
      modifies this`phase, this`files, this`partial, this`used
      ensures Wired() && permit.GaveBack(None)
      ensures View() == old(View()).(phase := Broken, files := [], partial := None, used := 0)
    {
      hide FramePermit.Valid, FrameBudget.View;
      phase := Broken;
      files := [];
      partial := None;
      used := 0;
      permit.Undisturbed();
    }

    /** Take `released` off the usage and shrink the grant as far as the phase asks for. */
    method ReleaseCapacity(released: nat, closed: bool)
      requires Wired()
      modifies this`used, permit`capacity, permit.budget`available, permit.budget`waiters, permit.budget.Cells()
      ensures Wired()
      ensures var u := Minus(old(used), released);
              var keep := if closed then u else if phase.Draining? then u else Max(target, u);
              && View() == old(View()).(used := u, capacity := permit.capacity)
              && permit.GaveBack(if closed || released > 0 then Some(Min(old(permit.capacity), keep)) else None)
    {
      hide FramePermit.Valid, FrameBudget.View, Budgets.Shrink;
      used := Minus(used, released);
      permit.Undisturbed();
      HeldSeen();
      Budgets.ReturnedMin(permit.budget.View(), permit.request.id, used);
      if closed {
        permit.ShrinkTo(used);
      } else if released > 0 {
        var desired := if phase.Draining? then used else Max(target, used);
        permit.ShrinkTo(Min(permit.capacity, desired));
      }
    }

    lemma HeldSeen()
      requires Wired()
      ensures Budgets.Usable(permit.budget.View(), permit.request.id)
      ensures permit.budget.View().permits[permit.request.id] == permit.View()
    {
    }

    lemma BudgetSeen()
      requires Wired()
      ensures permit.budget.View().total == permit.budget.total == View().total && Here().budget == permit.budget.View()
      ensures Budgets.Inv(Here().budget) && Budgets.Usable(Here().budget, permit.request.id)
      ensures Here().budget.permits[permit.request.id] == permit.View() && permit.View().capacity == permit.capacity
    {
    }

    /** Poll one slot and return the capacity it releases. */
    method PollSlotAt(index: nat, answer: Response<T>) returns (fatal: bool, changed: bool)
      requires Wired() && index < |files| && Enabled(View(), PollSlot(index, answer))
      requires !registered
      modifies this, files, permit`capacity, permit.budget`available, permit.budget`waiters, permit.budget.Cells()
      ensures Wired() && history == old(history) && pollCursor == old(pollCursor)
      ensures View() == PollStep(old(View()), index, answer)
      ensures permit.GaveBack(Clients.WriterReturns(old(View()), PollSlot(index, answer)))
      ensures var r := WriteSlots.Poll(old(View()).files[index], answer, old(phase).Draining?, maxRetries);
              (fatal <==> r.Fatal?) && (!fatal ==> changed == r.changed && files == old(files))
      ensures !registered && wakes == old(wakes)
    {
      hide FramePermit.Valid, FrameBudget.View;
      var slot := files[index];
      var released;
      fatal, changed, released := slot.Poll(answer, phase.Draining?, maxRetries);
      if fatal {
        Fail();
        return;
      }
      assert Views(files) == old(Views(files))[index := slot.View()];
      ReleaseCapacity(released, changed && slot.state.Closed?);
    }

    /** Remember that event `e` happened. */
    ghost method Record(e: Event<T>)
      requires Wired()
      modifies this`history
      ensures Wired() && View() == old(View()) && permit.GaveBack(None)
      ensures history == old(history) + [e]
    {
      history := history + [e];
      permit.Undisturbed();
    }

    /** Poll one slot with whatever its backend answers, if it asks anything, and record it. */
    method Advance(index: nat) returns (fatal: bool, changed: bool)
      requires Valid() && !phase.Broken? && index < |files|
      requires !registered
      modifies this, files, permit`capacity, permit.budget`available, permit.budget`waiters, permit.budget.Cells()
      ensures Valid() && pollCursor == old(pollCursor)
      ensures Advanced(old(View()), old(history), index, View(), history, fatal, changed)
      ensures !fatal ==> files == old(files)
      ensures Clients.Leads(permit.request.id, old(Here()), Here())
      ensures !registered && wakes == old(wakes)
    {
      hide WriteScheduler.Valid, Wired, FramePermit.Valid, Inv, Run, PollStep, Poll, Clients.WriterReturns,
          Clients.Leads, Budgets.Returned, FrameBudget.View;
      Reachable();
      var answer := AskBackend();
      if !files[index].Asks() {
        answer := Done;
      }
      ghost var e := PollSlot(index, answer);
      fatal, changed := PollSlotAt(index, answer);
      Record(e);
      Made(e);
    }

    method NextIndex(count: nat) returns (index: nat)
      requires Valid() && count == |files| > 0
      modifies this`pollCursor
      ensures Valid() && View() == old(View()) && permit.GaveBack(None)
      ensures index == old(pollCursor) % count && pollCursor == (index + 1) % count
    {
      index := pollCursor % count;
      pollCursor := (index + 1) % count;
      permit.Undisturbed();
    }

    /** Poll the slot under the cursor and move the cursor on. */
    method Turn() returns (fatal: bool, changed: bool, ghost index: nat)
      requires Valid() && !phase.Broken? && files != []
      requires !registered
      modifies this, files, permit`capacity, permit.budget`available, permit.budget`waiters, permit.budget.Cells()
      ensures Valid() && index == old(pollCursor) % old(|files|) && pollCursor == (index + 1) % old(|files|)
      ensures |history| == |old(history)| + 1 && history[..|old(history)|] == old(history)
      ensures Turned(old(View()), history[|old(history)|], index, View(), fatal, changed)
      ensures (fatal <==> phase.Broken?) && (!fatal ==> files == old(files))
      ensures Clients.Leads(permit.request.id, old(Here()), Here())
      ensures !registered && wakes == old(wakes)
    {
      hide Clients.Leads, FramePermit.Valid, FrameBudget.View, Coupled, Inv, Run, PollStep, Poll, Kept;
      var k := NextIndex(|files|);
      index := k;
      Reachable();
      ghost var w := View();
      fatal, changed := Advance(k);
      UnchangedPoll(w, k, history[|old(history)|].answer);
      FatalFails(w.files[k], history[|old(history)|].answer, w.phase.Draining?, w.maxRetries);
    }

    /** One pass over the slots, starting where the last one stopped. */
    method Pass(remaining: nat, ghost start: nat, ghost origin: nat)
      returns (fatal: bool, progressed: bool, left: nat)
      requires Valid() && !phase.Broken? && files != [] && remaining > 0 && start <= |history|
      requires Rotates(Turns(history, start), origin, pollCursor % |files|, |files|)
      requires !registered
      modifies this, files, permit`capacity, permit.budget`available, permit.budget`waiters, permit.budget.Cells()
      ensures Valid() && old(history) <= history
      ensures (fatal <==> phase.Broken?) && (fatal ==> Failure(history, |old(history)|))
      ensures !fatal ==> Kept(old(View()), View()) && files == old(files)
      ensures !fatal ==> Rotates(Turns(history, start), origin, pollCursor % |files|, |files|)
      ensures left + Work(initial, history, start) == remaining + Work(initial, old(history), start)
      ensures left <= remaining && (progressed ==> left < remaining)
      ensures !fatal && !progressed ==> Stuck(View()) && PendingSince(View(), history, |old(history)|)
      ensures Clients.Leads(permit.request.id, old(Here()), Here())
      ensures !registered && wakes == old(wakes)
    {
      hide *;
      ghost var s, i := Here(), permit.request.id;
      Clients.LeadsNowhere(i, s);
      fatal, progressed, left := false, false, remaining;
      var count := |files|;
      var n := 0;
      ghost var w0, h0, first := View(), history, pollCursor % count;
      Reachable();
      PassStart(initial, w0, h0, start, remaining, first);
      while n < count && left > 0
        invariant Valid() && files == old(files) && 0 <= n <= count == |View().files|
        invariant Clients.Leads(i, s, Here()) && !registered && wakes == old(wakes)
        invariant !fatal && !phase.Broken? && left <= remaining && (progressed ==> left < remaining)
        invariant pollCursor % count == RingAt(first, n, count)
        invariant start <= |history| && Rotates(Turns(history, start), origin, pollCursor % count, count)
        invariant PassInv(initial, w0, h0, View(), history, start, remaining, left, progressed, first, n)
      {
        ghost var w, h, t, cursor := View(), history, Here(), pollCursor;
        var changed;
        ghost var index;
        fatal, changed, index := Turn();
        Clients.LeadsOn(i, s, t, Here());
        Reachable();
        RingNext(first, n, count);
        PassTurn(initial, w0, h0, w, h, start, remaining, left, progressed, first, n, index, View(), history,
            fatal, changed);
        TurnsOn(h, start, history, w, index, View(), fatal, changed);
        RotatesOn(Turns(h, start), origin, cursor, index, count);
        if fatal {
          break;
        }
        if changed {
          progressed := true;
          left := left - 1;
        }
        n := n + 1;
      }
      if !fatal {
        PassEnd(initial, w0, h0, View(), history, start, remaining, left, progressed, first, n);
      }
    }

    /** Poll every slot in turn until a whole pass changes nothing, or until the operation limit. */
    method Drive() returns (result: DriveResult)
      requires Valid() && !phase.Broken?
      requires !registered
      modifies this, files, permit`capacity, permit.budget`available, permit.budget`waiters, permit.budget.Cells()
      ensures Valid() && old(history) <= history
      ensures (result.DriveFailed? <==> phase.Broken?) && (phase.Broken? ==> Failure(history, |old(history)|))
      ensures !phase.Broken? ==> Kept(old(View()), View()) && files == old(files)
      ensures Work(initial, history, |old(history)|) <= MAX_POLL_OPS
      ensures result.SelfWoke? ==> Work(initial, history, |old(history)|) == MAX_POLL_OPS
      ensures !result.DriveFailed? ==> WasDriven(initial, history, |old(history)|)
      ensures !result.DriveFailed? && files != [] ==>
                Rotates(Turns(history, |old(history)|), old(pollCursor) % |files|, pollCursor % |files|, |files|)
      ensures result.Settled? ==> Stuck(View()) && PendingSince(View(), history, |old(history)|)
      ensures Clients.Leads(permit.request.id, old(Here()), Here())
      ensures !registered && wakes == old(wakes)
    {
      hide WriteScheduler.Valid, WriteScheduler.Here, Clients.Leads, WriteScheduler.View, Inv, Run, Kept, Stuck,
          PendingSince, Work, Failure, WasDriven, Rotates, Turns;
      ghost var start := |history|;
      NoWork(initial, history);
      NoFiles(View(), history);
      ghost var s, i := Here(), permit.request.id;
      Clients.LeadsNowhere(i, s);
      Reachable();
      if files == [] {
        DrivenNow(initial, history, start, View());
        return Settled;
      }
      var remaining := MAX_POLL_OPS;
      ghost var origin := pollCursor % |files|;
      TurnsStart(history, origin, |files|);
      while true
        invariant Valid() && !phase.Broken? && files == old(files) && old(history) <= history
        invariant !registered && wakes == old(wakes)
        invariant Kept(old(View()), View()) && 0 < remaining && Clients.Leads(i, s, Here())
        invariant remaining + Work(initial, history, start) == MAX_POLL_OPS
        invariant Rotates(Turns(history, start), origin, pollCursor % |files|, |files|)
        decreases remaining
      {
        ghost var w, h, t := View(), history, Here();
        var fatal, progressed;
        fatal, progressed, remaining := Pass(remaining, start, origin);
        Clients.LeadsOn(i, s, t, Here());
        FailureStays(history, |h|, history, start);
        if fatal {
          return DriveFailed;
        }
        KeptTrans(old(View()), w, View());
        Reachable();
        DrivenNow(initial, history, start, View());
        if remaining == 0 {
          return SelfWoke;
        }
        if !progressed {
          PendingEarlier(View(), history, |h|, start);
          return Settled;
        }
      }
    }

    /** Hand the partial frame to the fill slot; an empty one only gives its reservation back. */
    method FlushPartial() returns (missing: bool)
      requires Wired()
      modifies this`partial, this`used, this`fillIndex, this`fed, files
      ensures Wired() && permit.GaveBack(None)
      ensures files == old(files)
      ensures missing <==> old(partial.Some? && fillIndex >= |files|)
      ensures !missing ==> old(partial.Some? ==> fillIndex < |Views(files)|) && View() == Flush(old(View()))
    {
      hide FramePermit.Valid;
      if partial.None? {
        return false;
      }
      var taken := partial.value;
      partial := None;
      if fillIndex >= |files| {
        permit.Undisturbed();
        return true;
      }
      var slot := files[fillIndex];
      if taken.empty {
        var released := if maxRetries == 0 then 1 else if slot.filled == 0 then slot.capacity else 0;
        used := Minus(used, released);
        permit.Undisturbed();
        return false;
      }
      slot.Push(taken.value);
      assert Views(files) == old(Views(files))[fillIndex := slot.View()];
      if slot.filled == slot.capacity {
        fillIndex := fillIndex + 1;
      }
      fed := fed + [taken.value];
      permit.Undisturbed();
      return false;
    }

    method ShrinkGrantTo(capacity: nat)
      requires Wired()
      modifies permit`capacity, permit.budget`available, permit.budget`waiters, permit.budget.Cells()
      ensures Wired() && View() == old(View()).(capacity := permit.capacity)
      ensures permit.GaveBack(Some(capacity))
    {
      hide FramePermit.Valid, FrameBudget.View, Budgets.Shrink;
      permit.ShrinkTo(capacity);
    }

    method GrowGrantTo(minimum: nat, desired: nat) returns (result: Budgets.GrowResult)
      requires Wired()
      modifies permit`capacity, permit.budget`available, permit.budget`waiters, permit.request
      ensures Wired() && View() == old(View()).(capacity := permit.capacity)
      ensures Budgets.GrowSeen(old(permit.View()), permit.View(), result, minimum, desired, permit.budget.total)
      ensures Budgets.Usable(old(permit.budget.View()), permit.request.id)
      ensures (permit.budget.View(), result)
              == Budgets.Grow(old(permit.budget.View()), permit.request.id, minimum, desired)
    {
      hide FramePermit.Valid, FrameBudget.View, Budgets.Grow, Budgets.GrowSeen;
      HeldSeen();
      result := permit.PollGrow(minimum, desired);
    }

    /** Return unused fragments before waiting for a complete reservation. */
    method ReturnFragments()
      requires Valid() && phase.Accepting?
      modifies this`history, permit`capacity, permit.budget`available, permit.budget`waiters, permit.budget.Cells()
      ensures Valid() && old(history) <= history && NoPolls(history, |old(history)|)
      ensures View() == old(View()).(capacity := used) && permit.capacity == used
      ensures Here().budget
              == Budgets.Returned(old(Here()).budget, permit.request.id,
                     if old(permit.capacity) > used then Some(used) else None)
      ensures Clients.Leads(permit.request.id, old(Here()), Here())
    {
      hide WriteScheduler.Valid, Wired, FramePermit.Valid, Inv, Run, Coupled, Clients.Leads;
      Reachable();
      Clients.LeadsNowhere(permit.request.id, Here());
      if permit.capacity > used {
        ShrinkGrantTo(used);
        Record(ShrinkGrant(used));
        Made(ShrinkGrant(used));
      }
    }

    /** Ask the budget for the next frame's reservation while holding exactly what is used. */
    method Request(minimum: nat) returns (ready: bool)
      requires Valid() && phase.Accepting? && partial.None? && fillIndex < |files|
      requires Fits(View()) && minimum == used + Needed(View()) > used == permit.capacity
      modifies this`history, permit`capacity, permit.budget`available, permit.budget`waiters, permit.request
      ensures Reserved(old(View()), old(history), minimum, ready)
      ensures Budgets.Usable(old(Here()).budget, permit.request.id) && permit.request.id < |Here().budget.permits|
      ensures (Here().budget, if ready then Budgets.Ready else Budgets.Pending)
              == Budgets.Grow(old(Here()).budget, permit.request.id, minimum,
                     Min(Max(target, minimum), permit.budget.total))
      ensures Here().budget.permits[permit.request.id].capacity == permit.capacity
      ensures if ready then Clients.Covered(permit.request.id, old(Here()), Here())
              else Clients.Leads(permit.request.id, old(Here()), Here())
    {
      hide Wired, FramePermit.Valid, Inv, Run, Clients.Leads, Clients.Covered, Budgets.Grow, FrameBudget.View;
      Reachable();
      ghost var b, i := permit.budget.View(), permit.request.id;
      var desired := Min(Max(target, minimum), permit.budget.total);
      ghost var w, p := View(), permit.View();
      var result := GrowGrantTo(minimum, desired);
      ReserveOutcome(w, p, permit.View(), result);
      HeldSeen();
      Clients.ReservationLeads(i, b, w, permit.budget.View(), result, View());
      match result {
        case Ready =>
          RunAppend(initial, history, GrowGrant(permit.capacity));
          Record(GrowGrant(permit.capacity));
          return true;
        case Invalid =>
          assert false;
        case Pending =>
          return false;
      }
    }

    /** Since state `w`, the grant has either come to cover `minimum` or is being waited for. */
    ghost predicate Reserved(w: Writer<T>, before: seq<Event<T>>, minimum: nat, ready: bool)
      reads this, files, permit, permit.request, permit.budget, permit.budget.permits, permit.budget.Cells()
    {
      && Wired() && Run(initial, history) == Some(View()) && before <= history && NoPolls(history, |before|)
      && View() == w.(capacity := permit.capacity)
      && if ready then
           minimum <= permit.capacity <= permit.budget.total && permit.capacity <= Max(w.target, minimum)
           && permit.request.live && !permit.request.waiting && permit.request.granted == 0
         else
           Valid() && permit.request.waiting
    }

    /** Reserve the fill slot's next frame, or queue for it. */
    method EnsureCapacity(minimum: nat) returns (ready: bool)
      requires Valid() && phase.Accepting? && partial.None? && fillIndex < |files|
      requires Fits(View()) && minimum == used + Needed(View())
      modifies this`history, permit`capacity, permit.budget`available, permit.budget`waiters, permit.budget.Cells()
      ensures Reserved(old(View()), old(history), minimum, ready)
      ensures FillsWindow(old(Here()).budget, permit.request.id, minimum, target, ready, permit.capacity)
      ensures if ready then Clients.Covered(permit.request.id, old(Here()), Here())
              else Clients.Leads(permit.request.id, old(Here()), Here())
    {
      hide WriteScheduler.Here, Wired, FramePermit.Valid, Inv, Run, Clients.Leads, Budgets.Returned,
          Budgets.Grow, FrameBudget.View;
      Reachable();
      BudgetSeen();
      ghost var s, i := Here(), permit.request.id;
      Clients.LeadsNowhere(i, s);
      if permit.capacity >= minimum {
        return true;
      }
      ReservationFills(s.budget, i, used, minimum, target);
      ReturnFragments();
      ghost var t := Here();
      ready := Request(minimum);
      if ready {
        Clients.CoveredSince(i, s, t, Here());
      } else {
        Clients.LeadsOn(i, s, t, Here());
      }
    }

    /** Start the next partial frame on capacity that has been reserved for it. */
    method Allocate(empty: Partial<T>)
      requires Wired() && Run(initial, history) == Some(View()) && Inv(initial)
      requires !registered
      requires permit.request.live && !permit.request.waiting && permit.request.granted == 0
      requires Enabled(View(), Event.Allocate(empty)) && permit.capacity <= Max(target, used + Needed(View()))
      modifies this, permit`capacity, permit.budget`available, permit.budget`waiters, permit.budget.Cells()
      ensures Valid() && history == old(history) + [Event.Allocate(empty)]
      ensures View() == AllocateStep(old(View()), empty)
      ensures phase.Accepting? ==> files == old(files)
      ensures permit.GaveBack(if phase.Broken? then Some(0) else None)
      ensures !registered && wakes == old(wakes) && pollCursor == old(pollCursor)
    {
      hide Wired, FramePermit.Valid, Inv, Run, Coupled, AllocateStep, Budgets.Returned, FrameBudget.View;
      EveryRunKeepsInv(initial, history);
      RunAppend(initial, history, Event.Allocate(empty));
      AllocateCoupled(View(), permit.View(), empty);
      AllocatePartial(empty);
      Record(Event.Allocate(empty));
    }

    method AllocatePartial(empty: Partial<T>)
      requires Wired() && fillIndex < |files| && phase.Accepting?
      requires !registered
      modifies this`phase, this`files, this`partial, this`used, this`registered, this`wakes
      modifies permit`capacity, permit.budget`available, permit.budget`waiters, permit.budget.Cells()
      ensures Wired() && View() == AllocateStep(old(View()), empty)
      ensures permit.GaveBack(if phase.Broken? then Some(0) else None)
      ensures phase.Accepting? ==> files == old(files)
      ensures !registered && wakes == old(wakes)
    {
      hide Wired, FramePermit.Valid;
      var slot := files[fillIndex];
      var needed := if maxRetries == 0 then 1 else if slot.filled == 0 then slot.capacity else 0;
      SetPartial(used + needed, empty);
      if !empty.empty || empty.complete {
        Fail();
      }
    }

    method SetPartial(used: nat, value: Partial<T>)
      requires Wired()
      modifies this`used, this`partial
      ensures Wired() && View() == old(View()).(used := used, partial := Some(value))
      ensures permit.GaveBack(None)
    {
      this.used := used;
      partial := Some(value);
      permit.Undisturbed();
    }

    /** Reserve the next frame and begin it, or queue for it. */
    method Begin(minimum: nat, empty: Partial<T>)
      requires Valid() && phase.Accepting? && partial.None? && fillIndex < |files|
      requires Fits(View()) && minimum == used + Needed(View()) && !registered
      modifies this, permit`capacity, permit.budget`available, permit.budget`waiters, permit.budget.Cells()
      ensures Valid() && old(history) <= history && NoPolls(history, |old(history)|)
      ensures Prepared(old(View()), empty, View(), permit.request.waiting,
                       if phase.Broken? then Some(InvalidPartialFrame) else None)
      ensures if phase.Broken? then !empty.empty || empty.complete else files == old(files)
      ensures Clients.Leads(permit.request.id, old(Here()), Here())
      ensures !registered && wakes == old(wakes) && pollCursor == old(pollCursor)
    {
      hide WriteScheduler.Valid, Wired, FramePermit.Valid, FramePermit.View, Inv, Run, Coupled, Clients.Leads,
          Clients.Covered, Budgets.Returned, FrameBudget.View, Needed, Fits;
      Reachable();
      ghost var s, i := Here(), permit.request.id;
      var ready := EnsureCapacity(minimum);
      if ready {
        ghost var t := Here();
        HeldSeen();
        Budgets.ReturnedNothing(t.budget, i);
        StillFits(old(View()), View());
        Allocate(empty);
        Clients.CoveredStarts(i, s, t, empty, permit.budget.View(), View());
      }
    }

    /** Make sure a partial frame exists, if there is a file and capacity for it. */
    method PreparePartial(empty: Partial<T>) returns (error: Option<WriteError>)
      requires Valid() && phase.Accepting?
      requires !registered
      modifies this, permit`capacity, permit.budget`available, permit.budget`waiters, permit.budget.Cells()
      ensures Valid() && old(history) <= history && NoPolls(history, |old(history)|)
      ensures Prepared(old(View()), empty, View(), permit.request.waiting, error)
      ensures error.None? ==> files == old(files)
      ensures error.Some? ==> !empty.empty || empty.complete
      ensures Clients.Leads(permit.request.id, old(Here()), Here())
      ensures !registered && wakes == old(wakes) && pollCursor == old(pollCursor)
    {
      hide WriteScheduler.Valid, WriteScheduler.Here, Wired, FramePermit.Valid, FramePermit.View, Inv, Run, Coupled,
          Clients.Leads;
      Reachable();
      Clients.LeadsNowhere(permit.request.id, Here());
      if partial.None? && fillIndex < |files| {
        var slot := files[fillIndex];
        var needed := if maxRetries == 0 then 1 else if slot.filled == 0 then slot.capacity else 0;
        var limit := if maxRetries == 0 then Min(permit.budget.total, target) else permit.budget.total;
        if needed <= Minus(limit, used) {
          Begin(used + needed, empty);
          if phase.Broken? {
            return Some(InvalidPartialFrame);
          }
        }
      }
      return None;
    }

    /** Let the input fill the partial frame once, and flush the frame when it is complete. */
    method FillPartial(input: Partial<T> -> FillResult<T>) returns (r: FillReport)
      requires Valid() && phase.Accepting? && partial.Some?
      requires !registered
      modifies this, files, permit`capacity, permit.budget`available, permit.budget`waiters, permit.budget.Cells()
      ensures Valid() && history == old(history) + [Event.Fill(input(old(partial).value))]
      ensures View() == FillStep(old(View()), input(old(partial).value))
      ensures FillReported(input(old(partial).value), r) && (!r.Unusable? ==> files == old(files))
      ensures Clients.Leads(permit.request.id, old(Here()), Here())
      ensures !registered && wakes == old(wakes) && pollCursor == old(pollCursor)
    {
      hide WriteScheduler.Here, WriteScheduler.Valid, Wired, FramePermit.Valid, Inv, Run, Coupled, FillStep,
          Clients.Leads;
      Reachable();
      ghost var e := Event.Fill(input(partial.value));
      FillStarts(View());
      r := FillOnce(input);
      Record(e);
      Made(e);
    }

    /** Whatever the other permits of the same budget do, the scheduler stays valid and as it was. */
    twostate lemma OthersKeepValid()
      requires old(Valid()) && unchanged(this) && unchanged(old(files)) && unchanged(permit)
      requires permit.budget.Wired() && old(permit.budget.permits) <= permit.budget.permits
      requires Budgets.Spares(old(permit.budget.View()), permit.budget.View(), permit.request.id)
      ensures Valid() && View() == old(View())
    {
      hide Inv, Run, Coupled, Budgets.Inv, Budgets.Spares;
      ghost var b, i := old(permit.budget.View()), permit.request.id;
      assert b.permits[i] == old(permit.View());
      Budgets.OthersOnlyServe(b, permit.budget.View(), i);
      assert permit.budget.View().permits[i] == permit.View();
      OthersKeepCoupled(b, permit.budget.View(), i, View());
    }

    /** The only permit of a budget never waits. */
    lemma SoleNeverWaits()
      requires Valid() && |permit.budget.permits| == 1
      ensures !permit.request.waiting
    {
      HeldSeen();
      ghost var b := permit.budget.View();
      if b.queue != [] {
        ghost var i := Budgets.BlockedHeadHasHolder(b);
      }
    }

    lemma BrokenIsEmpty()
      requires Valid() && phase.Broken?
      ensures files == []
    {
      Reachable();
    }

    lemma PhaseSeen()
      ensures View().phase == phase
    {
    }

    lemma PartialSeen(input: Partial<T> -> FillResult<T>)
      ensures View().partial.Some? && input(View().partial.value).FillPending? ==> Hungry(input)
    {
    }

    lemma HistorySeen()
      ensures View().fed == fed && View().admitted == admitted && View().popped == popped
    {
    }

    lemma Restore()
      requires Wired() && Inv(initial) && Run(initial, history) == Some(View()) && Coupled(View(), permit.View())
      ensures Valid()
    {
    }

    method FillOnce(input: Partial<T> -> FillResult<T>) returns (r: FillReport)
      requires Wired() && partial.Some? && fillIndex < |files| && phase.Accepting?
      requires !registered
      modifies this`phase, this`files, this`partial, this`used, this`fillIndex, this`fed, files
      modifies this`registered, this`wakes
      modifies permit`capacity, permit.budget`available, permit.budget`waiters, permit.budget.Cells()
      ensures Wired() && View() == FillStep(old(View()), input(old(partial).value))
      ensures permit.GaveBack(if phase.Broken? then Some(0) else None)
      ensures FillReported(input(old(partial).value), r) && (!r.Unusable? ==> files == old(files))
      ensures !registered && wakes == old(wakes)
    {
      hide Wired, FramePermit.Valid, Flush;
      match input(partial.value) {
        case FillPending =>
          return NoInput;
        case FillFailed =>
          Fail();
          return Unusable(Input);
        case FillDone(after, output) =>
          SetPartial(used, after);
          if after.complete {
            if after.empty {
              Fail();
              return Unusable(InvalidPartialFrame);
            }
            var missing := FlushPartial();
          }
          return Consumed(output);
      }
    }

    /** `take_while(done).count()` over the window. */
    method CompletedFiles() returns (n: nat)
      ensures n == HeadsDone(View().files) && (n > 0 <==> HeadDone(View()))
    {
      n := 0;
      ghost var views := Views(files);
      while n < |files| && files[n].state.Closed?
        invariant n <= |files|
        invariant n + HeadsDone(views[n..]) == HeadsDone(views)
      {
        n := n + 1;
      }
    }

    method Status(output: Option<nat>) returns (status: WriteStatus)
      requires Valid()
      ensures Valid() && View() == old(View()) && Here() == old(Here())
      ensures status == WriteStatus(output, HeadsDone(View().files), Minus(maxActive, |files|))
      ensures (status.completed > 0 <==> HeadDone(View())) && (status.missing > 0 <==> |files| < maxActive)
    {
      hide Inv, Run, Coupled, FramePermit.Valid, HeadsDone, HeadDone;
      var completed := CompletedFiles();
      permit.Undisturbed();
      return WriteStatus(output, completed, Minus(maxActive, |files|));
    }

    /** Prepare a partial frame if there is none, and let the input fill it once. */
    method Supply(empty: Partial<T>, input: Partial<T> -> FillResult<T>) returns (r: FillReport)
      requires Valid() && phase.Accepting?
      requires !registered
      modifies this, files, permit`capacity, permit.budget`available, permit.budget`waiters, permit.budget.Cells()
      ensures Valid() && old(history) <= history && NoPolls(history, |old(history)|)
      ensures Supplied(old(View()), |old(history)|, empty, View(), r, permit.request.waiting, history)
      ensures !r.Unusable? ==> Absorbed(old(View()), empty, input, View(), Taken(r))
      ensures !r.Unusable? ==> files == old(files)
      ensures r.Consumed? ==> Delivered(initial, history, input, r.output)
      ensures r.Unusable? ==> Spoils(empty, input)
      ensures r.NoInput? ==>
                if View().partial.Some? then input(View().partial.value).FillPending?
                else Prepared(old(View()), empty, View(), permit.request.waiting, None)
      ensures Clients.Leads(permit.request.id, old(Here()), Here())
      ensures !registered && wakes == old(wakes) && pollCursor == old(pollCursor)
    {
      hide WriteScheduler.Valid, Wired, FramePermit.Valid, Inv, Run, Coupled, Prepared, FillStep, Delivered,
          WriteScheduler.Here, Clients.Leads, Hungry;
      ghost var s, i := Here(), permit.request.id;
      ghost var w := View();
      var error := PreparePartial(empty);
      PreparedKeeps(w, empty, View(), permit.request.waiting, error);
      if error.Some? {
        return Unusable(error.value);
      }
      AbsorbedNothing(w, empty, View(), permit.request.waiting, input);
      if partial.None? {
        return NoInput;
      }
      Reachable();
      ghost var v, before, given, t := View(), history, partial.value, Here();
      FillStarts(v);
      r := FillPartial(input);
      Clients.LeadsOn(i, s, t, Here());
      SpoiledSeen(empty, input, given, r);
      HungryNow(input, given, r);
      FillEffect(v, input(given));
      AbsorbedOnce(w, empty, v, input, r);
      if r.Consumed? {
        DeliveredNow(initial, before, v, input, r.output);
      }
    }

    /** After driving: fill at most one partial frame and report, or find a cause to wait. */
    method FillAndReport(empty: Partial<T>, input: Partial<T> -> FillResult<T>, ghost from: nat, ghost settled: bool)
      returns (r: WritePoll)
      requires Valid() && phase.Accepting?
      requires !registered
      requires settled ==> Stuck(View()) && PendingSince(View(), history, from)
      modifies this, files, permit`capacity, permit.budget`available, permit.budget`waiters, permit.budget.Cells()
      ensures Valid() && old(history) <= history && NoPolls(history, |old(history)|)
      ensures r.Rejected? ==> phase.Broken? && r.error in {Input, InvalidPartialFrame} && Spoils(empty, input)
      ensures r.Waiting? && settled ==> HasCause(View(), history, from, permit.request.waiting)
      ensures r.Waiting? ==> !HeadDone(View()) && maxActive <= |files|
      ensures r.Waiting? && settled && !permit.request.waiting && !Hungry(input) ==> !Succeeds(history, from)
      ensures r.Report? ==> r.status == WriteStatus(r.status.output, HeadsDone(View().files), Minus(maxActive, |files|))
      ensures r.Waiting? || (r.Report? && r.status.output.None?) ==>
                if View().partial.Some? then input(View().partial.value).FillPending?
                else permit.request.waiting || NoRoom(View())
      ensures r.Report? && r.status.output.None? ==> r.status.completed > 0 || r.status.missing > 0
      ensures !r.Rejected? ==> Absorbed(old(View()), empty, input, View(), Answered(r)) && files == old(files)
      ensures r.Report? && r.status.output.Some? ==> Delivered(initial, history, input, r.status.output.value)
      ensures pollCursor == old(pollCursor)
      ensures Clients.Leads(permit.request.id, old(Here()), Here())
      ensures !registered && wakes == old(wakes)
    {
      hide *;
      Reachable();
      ghost var w, h := View(), history;
      var filled := Supply(empty, input);
      SuppliedKeeps(w, |h|, empty, View(), filled, permit.request.waiting, history);
      PhaseSeen();
      if filled.Unusable? {
        return Rejected(filled.error);
      }
      PartialSeen(input);
      TakenSeen(filled);
      if filled.NoInput? && View().partial.None? && !permit.request.waiting {
        NoRoomSeen(w, empty, View(), false);
      }
      var status := Status(if filled.Consumed? then Some(filled.output) else None);
      if filled.Consumed? || status.completed > 0 || status.missing > 0 {
        AnswerSeen(Report(status));
        return Report(status);
      }
      Reachable();
      PositiveWindow(View());
      LengthSeen();
      AnswerSeen(Waiting);
      if settled {
        StallHasCause(w, empty, View(), h, from, permit.request.waiting, history);
        if !permit.request.waiting && !Hungry(input) {
          StallNeedsPending(w, empty, View(), h, from, history);
        }
      }
      return Waiting;
    }

    /** Wake the task that waits, if any, at the end of a call. */
    method Notify()
      requires Valid()
      modifies this`registered, this`wakes
      ensures Valid() && View() == old(View()) && Here() == old(Here()) && permit.View() == old(permit.View())
      ensures !registered && wakes == old(wakes) + (if old(registered) then 1 else 0)
    {
      hide Inv, Run, Coupled, FramePermit.Valid;
      Wake();
    }

    /** Remember the caller's task, or forget it. */
    method Listen(register: bool)
      requires Valid()
      modifies this`registered
      ensures Valid() && View() == old(View()) && Here() == old(Here()) && permit.View() == old(permit.View())
      ensures registered == register
    {
      registered := register;
      permit.Undisturbed();
    }

    /** Drive I/O and fill at most one partial frame. `Waiting` means nothing was consumed; unless
        the call woke itself, some backend or the input was found pending in this very call, or
        the budget has queued the writer, so there is always someone to wake it. */
    method PollWrite(empty: Partial<T>, input: Partial<T> -> FillResult<T>) returns (r: WritePoll, selfWoke: bool)
      requires Valid()
      modifies this, files, permit`capacity, permit.budget`available, permit.budget`waiters, permit.budget.Cells()
      ensures Valid() && old(history) <= history
      ensures !old(phase).Accepting? ==> r == Rejected(InputClosed) && View() == old(View())
      ensures r.Rejected? && old(phase).Accepting? ==>
                phase.Broken? && if r.error == BackendError then Failure(history, |old(history)|)
                                 else r.error in {Input, InvalidPartialFrame} && Spoils(empty, input)
      ensures (registered <==> r.Waiting?) && wakes == old(wakes)
      ensures Work(initial, history, |old(history)|) <= MAX_POLL_OPS
      ensures selfWoke ==> Work(initial, history, |old(history)|) == MAX_POLL_OPS
      ensures r.Waiting? || r.Report? ==> WasDriven(initial, history, |old(history)|)
      ensures !r.Rejected? && files != [] ==>
                Rotates(Turns(history, |old(history)|), old(pollCursor) % |files|, pollCursor % |files|, |files|)
      ensures r.Waiting? && !selfWoke ==> HasCause(View(), history, |old(history)|, permit.request.waiting)
      ensures r.Waiting? ==> !HeadDone(View()) && maxActive <= |files|
      ensures r.Waiting? && !selfWoke && !permit.request.waiting && !Hungry(input) ==>
                !Succeeds(history, |old(history)|)
      ensures r.Report? ==> r.status == WriteStatus(r.status.output, HeadsDone(View().files), Minus(maxActive, |files|))
      ensures r.Waiting? || (r.Report? && r.status.output.None?) ==>
                if View().partial.Some? then input(View().partial.value).FillPending?
                else permit.request.waiting || NoRoom(View())
      ensures r.Report? && r.status.output.None? ==> r.status.completed > 0 || r.status.missing > 0
      ensures !r.Rejected? ==> Absorbed(old(View()), empty, input, View(), Answered(r)) && files == old(files)
      ensures r.Report? && r.status.output.Some? ==> Delivered(initial, history, input, r.status.output.value)
      ensures forall k :: 0 <= k < |files| ==> files[k] in old(files)
      ensures Clients.Leads(permit.request.id, old(Here()), Here())
    {
      hide *;
      ghost var s, i := Here(), permit.request.id;
      Clients.LeadsNowhere(i, s);
      NoWork(initial, history);
      Listen(false);
      if !phase.Accepting? {
        return Rejected(InputClosed), false;
      }
      ghost var u := View();
      PhaseSeen();
      var driven := Drive();
      if driven.DriveFailed? {
        BrokenIsEmpty();
        return Rejected(BackendError), false;
      }
      selfWoke := driven.SelfWoke?;
      ghost var w, h, t := View(), history, Here();
      KeptPhase(u, w);
      PhaseSeen();
      r := FillAndReport(empty, input, |old(history)|, driven.Settled?);
      if r.Rejected? {
        BrokenIsEmpty();
      }
      AbsorbedSince(u, w, empty, input, View(), Answered(r));
      QuietWork(initial, h, history, |old(history)|);
      DrivenStays(initial, h, history, |old(history)|);
      QuietTurns(h, history, |old(history)|);
      Clients.LeadsOn(i, s, t, Here());
      Listen(r.Waiting?);
    }

    /** Whether another unopened descriptor fits in the window. */
    predicate AcceptFile()
      reads this
    {
      phase.Accepting? && |files| < maxActive
    }

    function ValidateFile(file: Descriptor): (error: Option<WriteError>)
      reads this, permit
      ensures error.Some? ==> error.value in {ZeroFrameCapacity, FrameCapacityExceedsBudget}
    {
      if file.capacity == 0 then Some(ZeroFrameCapacity)
      else if maxRetries > 0 && file.capacity > permit.budget.total then Some(FrameCapacityExceedsBudget)
      else None
    }

    method Append(slot: FileSlot<T>, file: Descriptor)
      requires Wired() && slot !in files && slot.View() == Opened(View(), file)
      modifies this`files, this`admitted
      ensures Wired() && View() == Admit(old(View()), file) && permit.GaveBack(None)
      ensures files == old(files) + [slot]
    {
      hide FramePermit.Valid;
      files := files + [slot];
      admitted := admitted + [file];
      assert Views(files) == Views(old(files)) + [slot.View()];
      permit.Undisturbed();
    }

    /** Append an unopened descriptor, unless input is closed, the window is full or the file invalid. */
    method PushFile(file: Descriptor) returns (error: Option<WriteError>)
      requires Valid()
      modifies this`files, this`admitted, this`history, this`registered, this`wakes
      ensures Valid()
      ensures error.None? <==> Enabled(old(View()), Event.PushFile(file))
      ensures error.None? ==> |files| == |old(files)| + 1
      ensures error.None? ==> View() == Admit(old(View()), file) && history == old(history) + [Event.PushFile(file)]
      ensures error.Some? ==> View() == old(View()) && history == old(history)
      ensures error == if !phase.Accepting? then Some(InputClosed)
                       else if |old(files)| >= maxActive then Some(AdmissionNotReady)
                       else if file.capacity == 0 then Some(ZeroFrameCapacity)
                       else if maxRetries > 0 && file.capacity > permit.budget.total then
                         Some(FrameCapacityExceedsBudget)
                       else None
      ensures forall k :: 0 <= k < |files| ==> files[k] in old(files) || fresh(files[k])
      ensures if error.None? then !registered && wakes == old(wakes) + (if old(registered) then 1 else 0)
              else registered == old(registered) && wakes == old(wakes)
      ensures Clients.Leads(permit.request.id, old(Here()), Here())
    {
      hide WriteScheduler.Here, WriteScheduler.Valid, Wired, FramePermit.Valid, FramePermit.View, Inv, Run, Coupled,
          Admit,
          Clients.WriterMoves, Clients.WriterReturns, Step,
          Clients.Leads, Budgets.Returned, FrameBudget.View;
      Clients.LeadsNowhere(permit.request.id, Here());
      if !phase.Accepting? {
        return Some(InputClosed);
      }
      if |files| >= maxActive {
        return Some(AdmissionNotReady);
      }
      Reachable();
      error := ValidateFile(file);
      if error.Some? {
        return;
      }
      PassingReturns(View(), Event.PushFile(file));
      var slot := NewSlotFor(file);
      Append(slot, file);
      Record(Event.PushFile(file));
      Made(Event.PushFile(file));
      Notify();
    }

    method NewSlotFor(file: Descriptor) returns (slot: FileSlot<T>)
      requires Wired()
      ensures Wired() && fresh(slot) && slot !in files && slot.View() == Opened(View(), file)
      ensures View() == old(View()) && permit.GaveBack(None)
    {
      hide FramePermit.Valid;
      slot := new FileSlot(file.name, file.capacity, maxRetries > 0);
      permit.Undisturbed();
    }

    /** Remove the closed head from the window. */
    method TakeHead() returns (slot: FileSlot<T>, output: seq<T>)
      requires Wired() && HeadDone(View())
      modifies this`files, this`fillIndex, this`pollCursor, this`popped
      ensures Wired() && View() == Writers.TakeHead(old(View())) && permit.GaveBack(None)
      ensures old(files) == [slot] + files
      ensures slot == old(files)[0] && slot !in files && slot.View() == old(View()).files[0]
      ensures old(View()).files[0].state == FileState.Closed(output) && pollCursor == Minus(old(pollCursor), 1)
    {
      hide FramePermit.Valid;
      slot := files[0];
      output := slot.state.output;
      assert Views(files)[1..] == Views(files[1..]);
      popped := popped + [Popped(Descriptor(slot.file.name, slot.file.capacity), output)];
      files := files[1..];
      fillIndex := Minus(fillIndex, 1);
      pollCursor := Minus(pollCursor, 1);
      permit.Undisturbed();
    }

    /** Make a removed slot carry a new, unopened descriptor; its cleared buffer is reused. */
    method Recycle(slot: FileSlot<T>, file: Descriptor) returns (previous: File<T>)
      requires Wired() && slot !in files
      requires slot.frames == Frames.New(maxRetries > 0)
      modifies slot
      ensures Wired() && View() == old(View()) && permit.GaveBack(None)
      ensures slot.View() == Opened(View(), file) && previous == old(slot.file)
    {
      hide FramePermit.Valid;
      previous := slot.file;
      slot.file := File(file.name, file.capacity, []);
      slot.capacity := file.capacity;
      slot.filled := 0;
      slot.written := 0;
      slot.retries := 0;
      slot.state := FileState.Idle;
      permit.Undisturbed();
      assert Views(files) == old(Views(files));
    }

    /** Replace one completed head with an unopened tail and return its descriptor and result. */
    method PopSwap(file: Descriptor) returns (r: PopResult<T>)
      requires Valid()
      modifies this, files
      ensures Valid()
      ensures r.Gone? <==> Enabled(old(View()), Event.PopSwap(file))
      ensures r.Gone? ==>
                && View() == Admit(Writers.TakeHead(old(View())), file)
                && history == old(history) + [Event.PopSwap(file)]
      ensures r.Gone? ==>
                && r.file == old(View()).files[0].file
                && FileState.Closed(r.output) == old(View()).files[0].state
      ensures !r.Gone? ==> View() == old(View()) && r.PopRejected?
      ensures r.PopRejected? ==>
                r.error == if !old(phase).Accepting? then InputClosed
                           else if file.capacity == 0 then ZeroFrameCapacity
                           else if maxRetries > 0 && file.capacity > permit.budget.total then FrameCapacityExceedsBudget
                           else AdmissionNotReady
      ensures r.Gone? <==>
                && old(phase).Accepting? && 0 < file.capacity
                && (maxRetries > 0 ==> file.capacity <= permit.budget.total)
                && old(View()).files != [] && old(View()).files[0].state.Closed?
      ensures r.Gone? ==> View().files == old(View()).files[1..] + [Opened(old(View()), file)]
      ensures forall k :: 0 <= k < |files| ==> files[k] in old(files)
      ensures if r.Gone? then !registered && wakes == old(wakes) + (if old(registered) then 1 else 0)
              else registered == old(registered) && wakes == old(wakes)
      ensures pollCursor == if r.Gone? then Minus(old(pollCursor), 1) else old(pollCursor)
      ensures Clients.Leads(permit.request.id, old(Here()), Here())
    {
      hide WriteScheduler.Valid, WriteScheduler.Here, Wired, FramePermit.Valid, FramePermit.View, Inv, Run, Coupled,
          Admit, Writers.TakeHead, Clients.Leads;
      Clients.LeadsNowhere(permit.request.id, Here());
      if !phase.Accepting? {
        return PopRejected(InputClosed);
      }
      Reachable();
      var error := ValidateFile(file);
      if error.Some? {
        return PopRejected(error.value);
      }
      if files == [] || !files[0].state.Closed? {
        return PopRejected(AdmissionNotReady);
      }
      PopSeen(View(), file);
      var previous, output := Exchange(file);
      return Gone(previous, output);
    }

    method Rotate(file: Descriptor) returns (previous: File<T>, output: seq<T>)
      requires Wired() && HeadDone(View()) && View().files[0].frames == Frames.New(maxRetries > 0)
      modifies this`files, this`fillIndex, this`pollCursor, this`popped, this`admitted, files
      ensures Wired() && View() == Admit(Writers.TakeHead(old(View())), file) && permit.GaveBack(None)
      ensures previous == old(View()).files[0].file && FileState.Closed(output) == old(View()).files[0].state
      ensures pollCursor == Minus(old(pollCursor), 1)
      ensures forall k :: 0 <= k < |files| ==> files[k] in old(files)
    {
      hide Wired, FramePermit.Valid, FramePermit.View, FrameBudget.View, Admit, Writers.TakeHead;
      var slot;
      slot, output := TakeHead();
      previous := Recycle(slot, file);
      Append(slot, file);
    }

    /** Take the head's result and make its slot the new tail. */
    method Exchange(file: Descriptor) returns (previous: File<T>, output: seq<T>)
      requires Valid() && Enabled(View(), Event.PopSwap(file))
      modifies this, files
      ensures Valid() && View() == Admit(Writers.TakeHead(old(View())), file)
      ensures history == old(history) + [Event.PopSwap(file)]
      ensures previous == old(View()).files[0].file && FileState.Closed(output) == old(View()).files[0].state
      ensures forall k :: 0 <= k < |files| ==> files[k] in old(files)
      ensures !registered && wakes == old(wakes) + (if old(registered) then 1 else 0)
      ensures pollCursor == Minus(old(pollCursor), 1)
      ensures Clients.Leads(permit.request.id, old(Here()), Here())
    {
      hide WriteScheduler.Valid, WriteScheduler.Here, Wired, FramePermit.Valid, FramePermit.View, Inv, Run, Coupled,
          Admit, Writers.TakeHead, Clients.WriterMoves, Clients.WriterReturns, Step, Clients.Leads, Budgets.Returned,
          FrameBudget.View;
      Reachable();
      HeadIsClear(View());
      PassingReturns(View(), Event.PopSwap(file));
      previous, output := Rotate(file);
      Record(Event.PopSwap(file));
      Made(Event.PopSwap(file));
      Notify();
    }

    /** Remove one completed head during close, without accepting a replacement. */
    method PopFile() returns (r: PopResult<T>)
      requires Valid()
      modifies this
      ensures Valid()
      ensures r.Gone? <==> Enabled(old(View()), Event.PopFile)
      ensures r.Gone? ==> View() == Writers.TakeHead(old(View())) && history == old(history) + [Event.PopFile]
      ensures r.Gone? ==>
                && r.file == old(View()).files[0].file
                && FileState.Closed(r.output) == old(View()).files[0].state
      ensures !r.Gone? ==> View() == old(View())
      ensures r.PopRejected? <==> !old(phase).Draining?
      ensures r.PopRejected? ==> r.error == InputClosed
      ensures r.Gone? <==> old(phase).Draining? && old(View()).files != [] && old(View()).files[0].state.Closed?
      ensures r.Gone? ==> View().files == old(View()).files[1..]
      ensures forall k :: 0 <= k < |files| ==> files[k] in old(files)
      ensures if r.Gone? then !registered && wakes == old(wakes) + (if old(registered) then 1 else 0)
              else registered == old(registered) && wakes == old(wakes)
      ensures pollCursor == if r.Gone? then Minus(old(pollCursor), 1) else old(pollCursor)
      ensures Clients.Leads(permit.request.id, old(Here()), Here())
    {
      hide WriteScheduler.Here, WriteScheduler.Valid, Wired, FramePermit.Valid, FramePermit.View, Inv, Run, Coupled,
          Writers.TakeHead, Clients.Leads;
      Clients.LeadsNowhere(permit.request.id, Here());
      if !phase.Draining? {
        return PopRejected(InputClosed);
      }
      Reachable();
      if files == [] || !files[0].state.Closed? {
        return NoHead;
      }
      PopSeen(View(), Descriptor(0, 0));
      var file, output := Withdraw();
      return Gone(file, output);
    }

    /** Take the head and its result out of the window. */
    method Withdraw() returns (file: File<T>, output: seq<T>)
      requires Valid() && Enabled(View(), Event.PopFile)
      modifies this
      ensures Valid() && View() == Writers.TakeHead(old(View())) && history == old(history) + [Event.PopFile]
      ensures file == old(View()).files[0].file && FileState.Closed(output) == old(View()).files[0].state
      ensures files == old(files)[1..]
      ensures !registered && wakes == old(wakes) + (if old(registered) then 1 else 0)
      ensures pollCursor == Minus(old(pollCursor), 1)
      ensures Clients.Leads(permit.request.id, old(Here()), Here())
    {
      hide WriteScheduler.Here, WriteScheduler.Valid, Wired, FramePermit.Valid, FramePermit.View, Inv, Run, Coupled,
          Writers.TakeHead, Clients.WriterMoves, Clients.WriterReturns, Step,
          Clients.Leads, Budgets.Returned, FrameBudget.View;
      Reachable();
      PassingReturns(View(), Event.PopFile);
      var slot;
      slot, output := TakeHead();
      file := slot.file;
      Record(Event.PopFile);
      Made(Event.PopFile);
      Notify();
    }

    /** Change the window without discarding accepted descriptors or frames. */
    method SetWindow(target: nat, maxActive: nat) returns (ok: bool)
      requires Valid()
      modifies this`target, this`maxActive, this`history, this`registered, this`wakes
      modifies permit`capacity, permit.budget`available, permit.budget`waiters, permit.budget.Cells()
      ensures Valid() && (ok <==> target > 0 && maxActive > 0)
      ensures ok ==>
                && View() == WindowStep(old(View()), target, maxActive)
                && history == old(history) + [Event.SetWindow(target, maxActive)]
      ensures ok ==>
                && this.target == target && this.maxActive == maxActive
                && permit.capacity == Min(old(permit.capacity), Max(target, used))
      ensures !ok ==> View() == old(View())
      ensures if ok then !registered && wakes == old(wakes) + (if old(registered) then 1 else 0)
              else registered == old(registered) && wakes == old(wakes)
      ensures Clients.Leads(permit.request.id, old(Here()), Here())
    {
      hide WriteScheduler.Here, WriteScheduler.Valid, Wired, FramePermit.Valid, Inv, Run, Coupled,
          Clients.WriterMoves, Clients.WriterReturns, Step,
          Clients.Leads, Budgets.Returned, FrameBudget.View;
      Clients.LeadsNowhere(permit.request.id, Here());
      if target == 0 || maxActive == 0 {
        return false;
      }
      Reachable();
      WindowReturns(View(), target, maxActive);
      ReplaceWindow(target, maxActive);
      ShrinkGrantTo(Min(permit.capacity, Max(target, used)));
      Record(Event.SetWindow(target, maxActive));
      Made(Event.SetWindow(target, maxActive));
      Notify();
      return true;
    }

    method ReplaceWindow(target: nat, maxActive: nat)
      requires Wired()
      modifies this`target, this`maxActive
      ensures Wired() && View() == old(View()).(target := target, maxActive := maxActive)
      ensures permit.GaveBack(None)
    {
      this.target := target;
      this.maxActive := maxActive;
      permit.Undisturbed();
    }

    method DropIdleTail()
      requires Wired()
      modifies this`files
      ensures files <= old(files)
      ensures Wired() && View() == old(View()).(files := DropUnused(old(View()).files))
      ensures permit.GaveBack(None)
    {
      hide FramePermit.Valid;
      ghost var views := Views(files);
      while files != [] && files[|files| - 1].filled == 0
        invariant files <= old(files) && DropUnused(Views(files)) == DropUnused(views)
        decreases |files|
      {
        assert Views(files)[..|files| - 1] == Views(files[..|files| - 1]);
        files := files[..|files| - 1];
      }
      permit.Undisturbed();
    }

    method EnterDraining()
      requires Wired()
      modifies this`phase
      ensures Wired() && View() == old(View()).(phase := Draining) && permit.GaveBack(None)
    {
      hide FramePermit.Valid;
      phase := Draining;
      permit.Undisturbed();
    }

    /** Flush the partial frame and forget the destinations that got nothing. */
    method EndInput()
      requires Wired() && phase.Accepting? && (partial.Some? ==> fillIndex < |View().files|)
      modifies this`phase, this`partial, this`used, this`fillIndex, this`fed, this`files, files
      ensures Wired() && permit.GaveBack(None) && files <= old(files)
      ensures View() == Unfed(Flush(old(View()).(phase := Draining)))
    {
      hide Wired, FramePermit.Valid, FramePermit.View, DropUnused, Flush;
      LengthSeen();
      EnterDraining();
      var missing := FlushPartial();
      DropIdleTail();
    }

    lemma LengthSeen()
      ensures |View().files| == |files| && View().maxActive == maxActive && View().phase == phase
    {
    }

    /** Stop input for good and return the capacity that is not in use. */
    method Shut()
      requires Wired() && phase.Accepting? && (partial.Some? ==> fillIndex < |View().files|)
      modifies this`phase, this`partial, this`used, this`fillIndex, this`fed, this`files, files
      modifies permit`capacity, permit.budget`available, permit.budget`waiters, permit.budget.Cells()
      ensures Wired() && files <= old(files) && View() == CloseStep(old(View()))
      ensures permit.GaveBack(Some(CloseStep(old(View())).used))
    {
      hide Wired, FramePermit.Valid, FrameBudget.View, Budgets.Returned, CloseStep, Unfed, Flush, Clients.WriterReturns,
          Clients.WriterMoves;
      CloseReturns(View());
      EndInput();
      ShrinkGrantTo(used);
    }

    method StartClosing()
      requires Valid() && phase.Accepting? && (partial.Some? ==> fillIndex < |View().files|)
      requires !registered
      modifies this, files, permit`capacity, permit.budget`available, permit.budget`waiters, permit.budget.Cells()
      ensures files <= old(files)
      ensures Valid() && View() == CloseStep(old(View())) && history == old(history) + [Event.BeginClose]
      ensures pollCursor == old(pollCursor)
      ensures Clients.Leads(permit.request.id, old(Here()), Here())
      ensures !registered && wakes == old(wakes)
    {
      hide WriteScheduler.Valid, WriteScheduler.Here, Wired, FramePermit.Valid, FramePermit.View, FrameBudget.View,
          Inv, Run, Coupled, CloseStep, Unfed, Flush, Step, Clients.WriterReturns, Clients.WriterMoves, Clients.Leads,
          Budgets.Returned;
      Reachable();
      CloseReturns(View());
      Shut();
      Record(Event.BeginClose);
      Made(Event.BeginClose);
    }

    /** Enter the closing phase if need be. */
    method EnterClosing()
      requires Valid() && !phase.Broken?
      requires !registered
      modifies this, files, permit`capacity, permit.budget`available, permit.budget`waiters, permit.budget.Cells()
      ensures Valid() && old(history) <= history && NoPolls(history, |old(history)|)
      ensures phase.Draining? && Ended(old(View()), View()) && files <= old(files) && pollCursor == old(pollCursor)
      ensures |View().files| <= |old(View()).files| && Effort(View()) <= Effort(old(View()))
      ensures Clients.Leads(permit.request.id, old(Here()), Here())
      ensures !registered && wakes == old(wakes)
    {
      hide WriteScheduler.Valid, Wired, FramePermit.Valid, FramePermit.View, Inv, Run, Coupled, CloseStep, Effort,
          WriteScheduler.Here, Clients.Leads;
      Reachable();
      Clients.LeadsNowhere(permit.request.id, Here());
      if phase.Accepting? {
        PartialHasFile(View());
        ClosePhase(View());
        CloseEnds(View());
        CloseLowersEffort(View());
        StartClosing();
      } else {
        EndedSelf(View());
      }
    }

    /** Enter the closing phase if need be, and drive. */
    method DriveClosing() returns (driven: DriveResult)
      requires Valid() && !phase.Broken?
      requires !registered
      modifies this, files, permit`capacity, permit.budget`available, permit.budget`waiters, permit.budget.Cells()
      ensures Valid() && old(history) <= history
      ensures if driven.DriveFailed? then phase.Broken? && Failure(history, |old(history)|) else phase.Draining?
      ensures !driven.DriveFailed? ==> Ended(old(View()), View()) && files <= old(files)
      ensures driven.Settled? ==> Stuck(View()) && PendingSince(View(), history, |old(history)|)
      ensures Succeeds(history, |old(history)|) ==>
                Nearer(old(View()), View(), if driven.SelfWoke? then MAX_POLL_OPS else 0)
      ensures Work(initial, history, |old(history)|) <= MAX_POLL_OPS
      ensures driven.SelfWoke? ==> Work(initial, history, |old(history)|) == MAX_POLL_OPS
      ensures !driven.DriveFailed? ==> WasDriven(initial, history, |old(history)|)
      ensures !driven.DriveFailed? && files != [] ==>
                Rotates(Turns(history, |old(history)|), old(pollCursor) % |files|, pollCursor % |files|, |files|)
      ensures Clients.Leads(permit.request.id, old(Here()), Here())
      ensures !registered && wakes == old(wakes)
    {
      hide *;
      ghost var u, s, from := View(), Here(), |history|;
      EnterClosing();
      ghost var w, h, t := View(), history, Here();
      Reachable();
      driven := Drive();
      Reachable();
      Clients.LeadsOn(permit.request.id, s, t, Here());
      if !driven.DriveFailed? {
        DrivenEarlier(initial, h, history, from);
        LateTurns(h, history, from);
      }
      DrivenSeen(initial, u, from, h, w, history, View(), driven);
    }

    /** Stop input for good, drive the rest, and count the results that are ready. Zero means the
        whole input now lies in the popped results, cut exactly as a sequential writer would. */
    method PollClose() returns (r: ClosePoll, selfWoke: bool)
      requires Valid()
      modifies this, files, permit`capacity, permit.budget`available, permit.budget`waiters, permit.budget.Cells()
      ensures Valid() && old(history) <= history
      ensures r.CloseRejected? <==> phase.Broken?
      ensures r.CloseRejected? ==> r.error == if old(phase).Broken? then InputClosed else BackendError
      ensures r.CloseRejected? && !old(phase).Broken? ==> Failure(history, |old(history)|)
      ensures (registered <==> r.Undone?) && wakes == old(wakes)
      ensures Work(initial, history, |old(history)|) <= MAX_POLL_OPS
      ensures selfWoke ==> Work(initial, history, |old(history)|) == MAX_POLL_OPS
      ensures !r.CloseRejected? ==> WasDriven(initial, history, |old(history)|)
      ensures !r.CloseRejected? && files != [] ==>
                Rotates(Turns(history, |old(history)|), old(pollCursor) % |files|, pollCursor % |files|, |files|)
      ensures r.Completed? ==> r.files == HeadsDone(View().files)
      ensures r.Undone? ==> View().files != [] && !HeadDone(View())
      ensures !r.CloseRejected? ==> Ended(old(View()), View()) && files <= old(files)
      ensures r.Undone? && !selfWoke ==> HasCause(View(), history, |old(history)|, false)
      ensures !old(phase).Broken? && Succeeds(history, |old(history)|) ==>
                !r.CloseRejected? && Nearer(old(View()), View(), if r.Undone? then MAX_POLL_OPS else 0)
      ensures r == Completed(0) ==>
                && Outputs(popped) == Segments(fed, Capacities(admitted)) && Left(popped) <= admitted
                && files == [] && used == 0 && permit.capacity == 0
      ensures forall k :: 0 <= k < |files| ==> files[k] in old(files)
      ensures Clients.Leads(permit.request.id, old(Here()), Here())
    {
      hide *;
      ghost var u, w0, from := View(), wakes, |history|;
      Clients.LeadsNowhere(permit.request.id, Here());
      NoWork(initial, history);
      Listen(false);
      PhaseSeen();
      if phase.Broken? {
        return CloseRejected(InputClosed), false;
      }
      var driven := DriveClosing();
      NearerSeen(u, View());
      PhaseSeen();
      if driven.DriveFailed? {
        BrokenIsEmpty();
        return CloseRejected(BackendError), false;
      }
      selfWoke := driven.SelfWoke?;
      r := Conclude(from, driven.Settled?);
    }

    /** After driving: count the results, or wait for the head's backend. */
    method Conclude(ghost from: nat, ghost settled: bool) returns (r: ClosePoll)
      requires Valid() && phase.Draining? && !registered
      requires settled ==> Stuck(View()) && PendingSince(View(), history, from)
      modifies this`registered
      ensures Valid() && View() == old(View()) && Here() == old(Here()) && permit.View() == old(permit.View())
      ensures !r.CloseRejected? && (registered <==> r.Undone?)
      ensures history == old(history)
      ensures r.Completed? ==> r.files == HeadsDone(View().files)
      ensures r.Undone? ==> View().files != [] && !HeadDone(View())
      ensures r.Undone? && settled ==> HasCause(View(), history, from, false) && !Succeeds(history, from)
      ensures r == Completed(0) ==>
                && Outputs(popped) == Segments(fed, Capacities(admitted)) && Left(popped) <= admitted
                && files == [] && used == 0 && permit.capacity == 0
    {
      hide WriteScheduler.Valid, WriteScheduler.Here, Wired, FramePermit.Valid, FramePermit.View, Inv, Run, Coupled,
          Stuck, PendingSince, HasCause, Outputs, Segments, Capacities, Left, HeadsDone, Succeeds;
      Reachable();
      var completed := CompletedFiles();
      if completed > 0 || files == [] {
        if files == [] {
          DrainedIsSegmentation(View());
        }
        return Completed(completed);
      }
      if settled {
        DrainHasCause(View(), history, from);
        SuccessSettlesNothing(View(), history, from);
      }
      Listen(true);
      return Undone;
    }
  }
}
