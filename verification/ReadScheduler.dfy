/** The read scheduler, updated in place, with logical positions kept in machine words. Ghost
    counters hold the true positions; every step is proved to perform one event of `Readers` on
    them, so the wrapped computations agree with the unbounded ones after any number of wraps. */
module ReadSchedulers {
  import opened Naturals
  import opened Segmentation
  import opened Readers
  import opened ReadPasses
  import opened Rings
  import opened BudgetedReaders
  import opened FrameBudgets
  import opened Wrapping
  import Budgets
  import Clients

  datatype PushError = Full | Closed | ZeroFrameCount | BadPosition

  datatype ReadPoll<T> = Waiting | End | Frame(frame: T) | Error(error: ReadError)

  method AskBackend<T(0)>() returns (answer: Answer<T>)
  {
    answer := *;
  }

  // --- what events give back --------------------------------------------------------------------

  lemma PlainReturns<T>(r: Reader<T>, e: Event<T>)
    requires e.PushFile? || e.CloseFiles? || e.Unblock? || e.Authorize? || e.TakeError?
    ensures Enabled(r, e) ==> Clients.ReaderReturns(r, e) == None
  {
  }

  lemma WindowReturns<T>(r: Reader<T>, window: Window)
    requires ValidWindow(window)
    ensures Clients.ReaderReturns(r, Event.SetWindow(window)) == Some(Min(r.capacity, Max(window.target, |r.frames|)))
  {
  }

  lemma PollReturns<T>(r: Reader<T>, index: nat, answer: Answer<T>, made: T)
    requires Enabled(r, Event.PollFile(index, answer, made))
    ensures Clients.ReaderReturns(r, Event.PollFile(index, answer, made))
            == if PollStep(r, index, answer, made).0.terminated then Some(0) else None
    ensures Step(r, Event.PollFile(index, answer, made)) == PollStep(r, index, answer, made).0
  {
    hide PollStep;
  }

  /** What retiring leaves over beyond the window, if it is worth returning. */
  function Given<T>(r: Reader<T>): Option<nat> {
    if Excessive(r) then Some(Max(r.window.target, |r.frames|)) else None
  }

  lemma ErrorSeen<T>(r: Reader<T>, q: Reader<T>)
    requires q == r.(capacity := 0, terminated := r.closed)
    ensures q.error == r.error
  {
  }

  /** Whether a reader can take no further file for now. */
  predicate IsFull<T>(r: Reader<T>) {
    |r.files| >= r.window.maxActive || Minus(r.discovered, r.emitted) >= Horizon(r.window)
  }

  lemma WindowStays<T>(r: Reader<T>, given: T)
    requires Inv(r)
    ensures r.error.Some? ==> r.(error := None, delivered := r.delivered + 1).window == r.window
    ensures !r.terminated && r.frames != [] && r.frames[0].frame.Some? ==> EmitStep(r, given).window == r.window
  {
    if !r.terminated && r.frames != [] && r.frames[0].frame.Some? {
      NonemptyWindow(r);
      EmitChanges(r, given);
    }
  }

  lemma EmitReturns<T>(r: Reader<T>, given: T)
    requires Enabled(r, Emit(given))
    ensures Clients.ReaderReturns(r, Emit(given)) == Given(Retire(Popped(r, given)))
  {
    hide Retire, Popped, Excessive;
  }

  /** An empty reader that holds nothing asks for nothing. */
  lemma RestSeen<T>(r: Reader<T>, p: Budgets.Permit)
    requires Coupled(r, p) && r.files == []
    ensures p.capacity == 0 ==> MayRest(p)
    ensures MayRest(Budgets.Cancelled(p, 0))
  {
  }

  // --- positions as words ---------------------------------------------------------------------------

  /** Every file ends less than a word's range past the front. */
  ghost predicate EndsLive<T>(r: Reader<T>) {
    forall i :: 0 <= i < |r.files| ==> r.emitted <= r.files[i].start + r.files[i].count < r.emitted + r.modulus
  }

  /** Each stored position is the true one modulo the word size. */
  ghost predicate Words<T>(files: seq<Slot<T>>, starts: seq<nat>, modulus: Modulus) {
    && |starts| == |files|
    && (forall i :: 0 <= i < |files| ==> files[i].start == Wrap(starts[i], modulus))
  }

  lemma WordsTail<T>(files: seq<Slot<T>>, starts: seq<nat>, modulus: Modulus)
    requires Words(files, starts, modulus) && files != []
    ensures Words(files[1..], starts[1..], modulus)
  {
  }

  /** The next position lies in the head file, so there is nothing to retire. */
  lemma HeadIsNeeded<T>(r: Reader<T>)
    requires Inv(r) && !r.terminated
    ensures EndsLive(r) && Retire(r) == r
  {
    RetireStops(r);
    forall i | 0 <= i < |r.files|
      ensures r.emitted <= r.files[i].start + r.files[i].count < r.emitted + r.modulus
    {
      LayoutFile(r, i);
    }
  }

  /** Handing out a frame leaves the end of every file at or past the new front. */
  lemma PoppedEndsLive<T>(r: Reader<T>, given: T)
    requires Inv(r) && !r.terminated && r.frames != [] && r.frames[0].frame.Some?
    ensures EndsLive(Popped(r, given))
  {
    forall i | 0 <= i < |r.files|
      ensures r.emitted < r.files[i].start + r.files[i].count < r.emitted + 1 + r.modulus
    {
      LayoutFile(r, i);
      LayoutFile(r, 0);
      if i > 0 {
        ChainOrder(r, 0, i);
      }
    }
  }

  lemma PositiveGoal<T>(r: Reader<T>)
    requires Inv(r)
    ensures Goal(r) > 0
  {
  }

  lemma LimitSeen(count: nat)
    ensures Max(MAX_POLL_OPS, count) >= count && Max(MAX_POLL_OPS, count) > 0
  {
  }

  /** The file's next position lies less than a word's range past the front, and in its content. */
  ghost predicate Live<T>(r: Reader<T>, index: nat)
    requires index < |r.files|
  {
    var s := r.files[index];
    && r.emitted <= s.start + s.received < r.emitted + r.modulus
    && (s.received == s.count || s.received < |s.file.content|)
  }

  lemma FileIsLive<T>(r: Reader<T>, index: nat)
    requires Inv(r) && !r.terminated && index < |r.files|
    ensures Live(r, index)
  {
    LayoutFile(r, index);
  }

  lemma UnaskedPoll<T>(r: Reader<T>, index: nat, answer: Answer<T>, made: T)
    requires index < |r.files|
    ensures !Asks(r, index) ==> PollStep(r, index, answer, made) == PollStep(r, index, Done, made)
  {
  }

  /** How a poll method reports the outcome of a poll step. */
  ghost predicate Outcome<T>(step: (Reader<T>, bool), r: Reader<T>, fault: Option<ReadError>, progressed: bool) {
    if fault.Some? then step.0 == Fail(r, fault.value) else step == (r, progressed)
  }

  lemma OutcomeSeen<T>(r: Reader<T>, index: nat, answer: Answer<T>, made: T, q: Reader<T>,
      fault: Option<ReadError>, progressed: bool)
    requires index < |r.files| && !r.terminated && Outcome(PollStep(r, index, answer, made), q, fault, progressed)
    ensures fault.Some? ==> PollStep(r, index, answer, made).0 == Readers.Fail(q, fault.value)
    ensures fault.None? ==> PollStep(r, index, answer, made) == (q, progressed)
  {
  }

  lemma ContentSeen<T>(r: Reader<T>, index: nat)
    requires index < |r.files| && Live(r, index)
    ensures r.emitted <= r.files[index].start + r.files[index].received
    ensures r.files[index].received == r.files[index].count || r.files[index].received < |r.files[index].file.content|
  {
  }

  /** A read waits, or hands out a frame, only after progressing as far as it may. */
  ghost predicate ProgressedFirst<T>(init: Reader<T>, b: Budgets.Budget, i: nat, h: seq<Event<T>>, from: nat,
                                     r: ReadPoll<T>, selfWoke: bool)
  {
    match r
    case Waiting => Progressed(init, b, i, h, from, !selfWoke)
    case Frame(_) =>
      && h != [] && h[|h| - 1].Emit?
      && (Progressed(init, b, i, h[..|h| - 1], from, true) || Progressed(init, b, i, h[..|h| - 1], from, false))
    case _ => true
  }

  lemma ProgressedSeen<T>(init: Reader<T>, b: Budgets.Budget, i: nat, h: seq<Event<T>>, from: nat, selfWoke: bool,
                          given: T)
    requires Progressed(init, b, i, h, from, !selfWoke)
    ensures ProgressedFirst(init, b, i, h, from, Waiting, selfWoke)
    ensures forall frame :: ProgressedFirst(init, b, i, h + [Emit(given)], from, Frame(frame), false)
    ensures forall after, r: ReadPoll<T> :: r.End? || r.Error? ==> ProgressedFirst(init, b, i, after, from, r, false)
  {
    assert (h + [Emit(given)])[..|h|] == h;
  }

  /** Slots with their true starting positions. */
  ghost function Unwrapped<T>(files: seq<Slot<T>>, starts: seq<nat>): seq<Slot<T>> {
    seq(|files|, i requires 0 <= i < |files| => if i < |starts| then files[i].(start := starts[i]) else files[i])
  }

  lemma NoWords<T>(modulus: Modulus)
    ensures Words<T>([], [], modulus) && Unwrapped<T>([], []) == []
  {
  }

  lemma UnwrappedAt<T>(files: seq<Slot<T>>, starts: seq<nat>, i: nat)
    requires i < |files| == |starts|
    ensures |Unwrapped(files, starts)| == |files| && Unwrapped(files, starts)[i].start == starts[i]
  {
  }

  lemma WordsUpdate<T>(files: seq<Slot<T>>, starts: seq<nat>, modulus: Modulus, i: nat, slot: Slot<T>)
    requires Words(files, starts, modulus) && i < |files| && slot.start == files[i].start
    ensures Words(files[i := slot], starts, modulus)
  {
  }

  lemma SameLength<T>(files: seq<Slot<T>>, starts: seq<nat>, modulus: Modulus)
    requires Words(files, starts, modulus)
    ensures |files| == |starts|
  {
  }

  lemma WordsAppend<T>(files: seq<Slot<T>>, starts: seq<nat>, modulus: Modulus, slot: Slot<T>, start: nat)
    requires Words(files, starts, modulus) && slot.start == Wrap(start, modulus)
    ensures Words(files + [slot], starts + [start], modulus)
  {
  }

  lemma UnwrappedAppend<T>(files: seq<Slot<T>>, starts: seq<nat>, slot: Slot<T>, start: nat)
    requires |files| == |starts|
    ensures Unwrapped(files + [slot], starts + [start]) == Unwrapped(files, starts) + [slot.(start := start)]
  {
  }

  lemma UnwrappedUpdate<T>(files: seq<Slot<T>>, starts: seq<nat>, i: nat, slot: Slot<T>)
    requires i < |files| == |starts|
    ensures Unwrapped(files[i := slot], starts) == Unwrapped(files, starts)[i := slot.(start := starts[i])]
  {
  }

  lemma UnwrappedTail<T>(files: seq<Slot<T>>, starts: seq<nat>)
    requires 0 < |files| == |starts|
    ensures Unwrapped(files[1..], starts[1..]) == Unwrapped(files, starts)[1..]
  {
  }

  class ReadScheduler<T(0,!new)> {
    const maxRetries: nat
    const modulus: Modulus
    const permit: FramePermit
    var window: Window
    var files: seq<Slot<T>>
    var frames: seq<Cell<T>>
    var recycled: seq<T>
    var emitted: nat
    var discovered: nat
    var cursor: nat
    var closed: bool
    var terminated: bool
    var error: Option<ReadError>
    ghost var starts: seq<nat>
    ghost var trueEmitted: nat
    ghost var trueDiscovered: nat
    ghost var admitted: seq<Source<T>>
    ghost var outputs: seq<T>
    ghost var created: nat
    ghost var widest: nat
    ghost var failed: bool
    ghost var delivered: nat
    ghost const initial: Reader<T>
    ghost var history: seq<Event<T>>

    /** The state with its true positions. */
    ghost function View(): Reader<T>
      reads this, permit
    {
      Reader(maxRetries, permit.budget.total, modulus, window, Unwrapped(files, starts), frames, recycled,
             trueEmitted, trueDiscovered, closed, terminated, error, permit.capacity,
             admitted, outputs, created, widest, failed, delivered)
    }

    /** The scheduler with the budget it draws on. */
    ghost function Here(): Clients.Share<T>
      reads this, permit, permit.budget, permit.budget.permits, permit.budget.Cells()
    {
      Clients.Share(permit.budget.View(), Clients.Reader(View()))
    }

    ghost predicate Wrapped()
      reads this
    {
      && emitted == Wrap(trueEmitted, modulus) && discovered == Wrap(trueDiscovered, modulus)
      && Words(files, starts, modulus)
    }

    ghost predicate Wired()
      reads this, permit, permit.budget, permit.budget.permits, permit.budget.Cells()
    {
      permit.Valid() && Wrapped()
    }

    ghost predicate Valid()
      reads this, permit, permit.request, permit.budget, permit.budget.permits, permit.budget.Cells()
    {
      && Wired()
      && Inv(initial) && Run(initial, history) == Some(View())
      && Coupled(View(), permit.View())
    }

    lemma Reachable()
      requires Valid()
      ensures Inv(View()) && Run(initial, history) == Some(View())
      ensures Wired() && Inv(initial) && Coupled(View(), permit.View())
      ensures permit.request in permit.budget.Cells()
      ensures |View().files| == |files| && View().terminated == terminated && View().capacity == permit.View().capacity
      ensures Budgets.Usable(permit.budget.View(), permit.request.id)
    {
      EveryRunKeepsInv(initial, history);
    }

    /** One event has happened, with the budget operation that belongs to it. */
    twostate lemma Made(new e: Event<T>)
      requires old(Valid()) && Wired() && history == old(history) + [e] && !e.GrowGrant?
      requires Enabled(old(View()), e) && View() == Step(old(View()), e)
      requires permit.GaveBack(Clients.ReaderReturns(old(View()), e))
      ensures Valid() && Clients.Leads(permit.request.id, old(Here()), Here())
    {
      hide Clients.ReaderReturns, Step, Clients.Leads, Budgets.Shrink, Inv, Coupled, Run, Budgets.Inv;
      EveryRunKeepsInv(initial, old(history));
      RunAppend(initial, old(history), e);
      Clients.ReaderCouples(old(View()), old(permit.View()), e);
      Clients.ReadLeads(permit.request.id, old(permit.budget.View()), old(View()), e, permit.budget.View());
    }

    lemma Restore()
      requires Wired() && Inv(initial) && Run(initial, history) == Some(View()) && Coupled(View(), permit.View())
      ensures Valid()
    {
    }

    /** Whatever the other permits of the same budget do, the scheduler stays valid and as it was. */
    twostate lemma OthersKeepValid()
      requires old(Valid()) && unchanged(this) && unchanged(permit)
      requires permit.budget.Wired() && old(permit.budget.permits) <= permit.budget.permits
      requires Budgets.Spares(old(permit.budget.View()), permit.budget.View(), permit.request.id)
      ensures Valid() && View() == old(View())
    {
      hide Inv, Run, Coupled, Budgets.Inv, Budgets.Spares;
      ghost var b, i := old(permit.budget.View()), permit.request.id;
      assert b.permits[i] == old(permit.View());
      Budgets.OthersOnlyServe(b, permit.budget.View(), i);
      assert permit.budget.View().permits[i] == permit.View();
      OthersKeepCoupled(b, permit.budget.View(), i, View());
    }

    constructor (permit: FramePermit, maxRetries: nat, modulus: Modulus, window: Window)
      requires permit.capacity == 0
      ensures this.permit == permit && Wrapped() && history == [] && cursor == 0
      ensures View() == initial == Init(maxRetries, permit.budget.total, modulus, window)
    {
      this.maxRetries := maxRetries;
      this.modulus := modulus;
      this.permit := permit;
      this.window := window;
      files, frames, recycled, emitted, discovered, cursor := [], [], [], 0, 0, 0;
      closed, terminated, error := false, false, None;
      starts, trueEmitted, trueDiscovered := [], 0, 0;
      admitted, outputs, created, widest, failed, delivered := [], [], 0, window.target, false, 0;
      initial := Init(maxRetries, permit.budget.total, modulus, window);
      history := [];
    }

    lemma StartIsValid()
      requires permit.Valid() && permit.View() == Budgets.NEW_PERMIT && Wrapped() && history == []
      requires View() == initial == Init(maxRetries, permit.budget.total, modulus, window)
      requires permit.budget.total > 0 && ValidWindow(window)
      ensures Valid()
    {
      InitInv<T>(maxRetries, permit.budget.total, modulus, window);
    }

    /** A scheduler over `budget`, unless the window or the budget is empty. */
    static method New(budget: FrameBudget, maxRetries: nat, modulus: Modulus, window: Window)
      returns (r: Option<ReadScheduler<T>>)
      requires budget.Valid()
      modifies budget`permits
      ensures r.None? <==> !ValidWindow(window) || budget.total == 0
      ensures r.Some? ==> r.value.Valid() && fresh(r.value) && fresh(r.value.permit) && r.value.permit.budget == budget
      ensures r.Some? ==> r.value.View() == Init(maxRetries, budget.total, modulus, window)
      ensures r.Some? ==> r.value.initial == r.value.View() && r.value.history == [] && r.value.cursor == 0
      ensures r.Some? ==> budget.View() == Budgets.Create(old(budget.View()))
      ensures r.None? ==> budget.permits == old(budget.permits)
      ensures r.Some? ==> fresh(r.value.permit.request) && budget.permits == old(budget.permits) + [r.value.permit]
    {
      hide ReadScheduler.Valid, FramePermit.Valid, Budgets.Create;
      if window.target == 0 || window.maxActive == 0 || budget.total == 0 {
        return None;
      }
      var permit := budget.NewPermit();
      label created:
      var reader := new ReadScheduler(permit, maxRetries, modulus, window);
      permit.Undisturbed@created();
      reader.StartIsValid();
      return Some(reader);
    }

    ghost method Record(e: Event<T>)
      requires Wired()
      modifies this`history
      ensures Wired() && View() == old(View()) && permit.GaveBack(None)
      ensures history == old(history) + [e]
    {
      history := history + [e];
      permit.Undisturbed();
    }

    lemma HeldSeen()
      requires Wired()
      ensures Budgets.Usable(permit.budget.View(), permit.request.id)
      ensures permit.budget.View().permits[permit.request.id] == permit.View()
    {
    }

    method ShrinkGrantTo(capacity: nat)
      requires Wired()
      modifies permit`capacity, permit.budget`available, permit.budget`waiters, permit.budget.Cells()
      ensures Wired() && View() == old(View()).(capacity := permit.capacity)
      ensures permit.GaveBack(Some(capacity))
    {
      hide FramePermit.Valid, FrameBudget.View, Budgets.Shrink;
      permit.ShrinkTo(capacity);
    }

    method GrowGrantTo(minimum: nat, desired: nat) returns (result: Budgets.GrowResult)
      requires Wired()
      modifies permit`capacity, permit.budget`available, permit.budget`waiters, permit.request
      ensures Wired() && View() == old(View()).(capacity := permit.capacity)
      ensures Budgets.GrowSeen(old(permit.View()), permit.View(), result, minimum, desired, permit.budget.total)
      ensures Budgets.Usable(old(permit.budget.View()), permit.request.id)
      ensures (permit.budget.View(), result)
              == Budgets.Grow(old(permit.budget.View()), permit.request.id, minimum, desired)
    {
      hide FramePermit.Valid, FrameBudget.View, Budgets.Grow, Budgets.GrowSeen;
      HeldSeen();
      result := permit.PollGrow(minimum, desired);
    }

    // --- admission and configuration -----------------------------------------------------------

    /** Admit a file without polling it, or say why not. The distance test is done on words. */
    method PushFile(file: Source<T>) returns (refused: Option<PushError>)
      requires Valid()
      modifies this`files, this`discovered, this`starts, this`trueDiscovered, this`admitted, this`history
      ensures Valid()
      ensures refused.None? <==> Accepts(old(View()), file)
      ensures refused.None? ==>
                && View() == PushStep(old(View()), file)
                && history == old(history) + [Event.PushFile(file)]
      ensures refused.Some? ==> View() == old(View()) && history == old(history)
      ensures !closed && !terminated ==> (refused == Some(Full) <==> IsFull(old(View())))
      ensures var known := old(trueDiscovered) - trueEmitted;
              refused == if closed || terminated then Some(Closed)
                         else if |old(files)| >= window.maxActive || known >= Max(window.target, window.openAhead) then
                           Some(Full)
                         else if file.content == [] then Some(ZeroFrameCount)
                         else if known + |file.content| >= modulus then Some(BadPosition)
                         else None
      ensures Clients.Leads(permit.request.id, old(Here()), Here())
    {
      hide ReadScheduler.Valid, Wired, FramePermit.Valid, FramePermit.View, Inv, Run, Coupled, PushStep,
          Clients.Leads, Clients.ReaderReturns,
          Budgets.Returned, FrameBudget.View;
      Reachable();
      Clients.LeadsNowhere(permit.request.id, Here());
      ghost var r := View();
      if closed || terminated {
        return Some(Closed);
      }
      LiveDistance();
      var distance := WrapSub(discovered, emitted, modulus);
      if |files| >= window.maxActive || distance >= Horizon(window) {
        return Some(Full);
      }
      var length := |file.content|;
      if length == 0 {
        return Some(ZeroFrameCount);
      }
      if length >= modulus || distance + length >= modulus {
        return Some(BadPosition);
      }
      PlainReturns(r, Event.PushFile(file));
      Append(file);
      Record(Event.PushFile(file));
      Made(Event.PushFile(file));
      return None;
    }

    /** The word distance of the last known from the next position is the true one. */
    lemma LiveDistance()
      requires Valid() && !terminated
      ensures trueEmitted <= trueDiscovered < trueEmitted + modulus && emitted < modulus
      ensures WrapSub(discovered, emitted, modulus) == trueDiscovered - trueEmitted
    {
      Reachable();
      WrapSubExact(trueDiscovered, trueEmitted, modulus);
    }

    method Append(file: Source<T>)
      requires Wired()
      modifies this`files, this`discovered, this`starts, this`trueDiscovered, this`admitted
      ensures Wired() && View() == PushStep(old(View()), file) && permit.GaveBack(None)
    {
      hide FramePermit.Valid, Unwrapped, Wrap, WrapAdd, Words;
      var length := |file.content|;
      SameLength(files, starts, modulus);
      var slot := Slot(file, discovered, length, 0, 0, Opening, false);
      UnwrappedAppend(files, starts, slot, trueDiscovered);
      WordsAppend(files, starts, modulus, slot, trueDiscovered);
      files := files + [slot];
      starts := starts + [trueDiscovered];
      WrapAddExact(trueDiscovered, length, modulus);
      discovered := WrapAdd(discovered, length, modulus);
      trueDiscovered := trueDiscovered + length;
      admitted := admitted + [file];
      permit.Undisturbed();
    }

    /** End admission. */
    method CloseFiles()
      requires Valid()
      modifies this`closed, this`history
      ensures Valid() && View() == old(View()).(closed := true) && history == old(history) + [Event.CloseFiles]
      ensures Clients.Leads(permit.request.id, old(Here()), Here())
    {
      hide ReadScheduler.Valid, FramePermit.Valid, Inv, Run, Coupled, Clients.Leads, Clients.ReaderReturns,
          Budgets.Returned, FrameBudget.View;
      Reachable();
      PlainReturns(View(), Event.CloseFiles);
      closed := true;
      permit.Undisturbed();
      Record(Event.CloseFiles);
      Made(Event.CloseFiles);
    }

    method ReplaceWindow(window: Window)
      requires Wired()
      modifies this`window, this`widest
      ensures Wired() && View() == old(View()).(window := window, widest := Max(old(widest), window.target))
      ensures permit.GaveBack(None)
    {
      hide FramePermit.Valid;
      widest := Max(widest, window.target);
      this.window := window;
      permit.Undisturbed();
    }

    /** Replace the window, keeping every authorized buffer and file. */
    method SetWindow(window: Window) returns (ok: bool)
      requires Valid()
      modifies this`window, this`widest, this`history
      modifies permit`capacity, permit.budget`available, permit.budget`waiters, permit.budget.Cells()
      ensures Valid() && (ok <==> ValidWindow(window))
      ensures ok ==> View() == WindowStep(old(View()), window) && history == old(history) + [Event.SetWindow(window)]
      ensures ok ==> this.window == window && permit.capacity == Min(old(permit.capacity), Max(window.target, |frames|))
      ensures !ok ==> View() == old(View())
      ensures Clients.Leads(permit.request.id, old(Here()), Here())
    {
      hide ReadScheduler.Valid, Wired, FramePermit.Valid, Inv, Run, Coupled, Clients.Leads, Clients.ReaderReturns,
          Budgets.Returned, FrameBudget.View;
      Clients.LeadsNowhere(permit.request.id, Here());
      if window.target == 0 || window.maxActive == 0 {
        return false;
      }
      Reachable();
      WindowReturns(View(), window);
      var keep := Min(permit.capacity, Max(window.target, |frames|));
      ReplaceWindow(window);
      ShrinkGrantTo(keep);
      Record(Event.SetWindow(window));
      Made(Event.SetWindow(window));
      return true;
    }

    // --- one poll --------------------------------------------------------------------------------

    /** Replace slot `index`, keeping its position. */
    method PutSlot(index: nat, slot: Slot<T>)
      requires Wired() && index < |files| && slot.start == files[index].start
      modifies this`files
      ensures Wired() && permit.GaveBack(None)
      ensures |files| == |old(files)|
      ensures View() == SetSlot(old(View()), index, slot.(start := old(View()).files[index].start))
    {
      hide FramePermit.Valid, Unwrapped, Words, Wrap;
      SameLength(files, starts, modulus);
      UnwrappedUpdate(files, starts, index, slot);
      UnwrappedAt(files, starts, index);
      WordsUpdate(files, starts, modulus, index, slot);
      files := files[index := slot];
      permit.Undisturbed();
    }

    /** Take the buffer of cell `k`, or put a recycled or new one there. */
    method EnsureBuffer(k: nat, made: T)
      requires Wired() && k < |frames|
      modifies this`frames, this`recycled, this`created
      ensures Wired() && View() == WithBuffer(old(View()), k, made) && permit.GaveBack(None)
      ensures files == old(files) && |frames| == |old(frames)|
    {
      hide FramePermit.Valid, Unwrapped, Words, Wrap;
      if frames[k].frame.None? {
        if recycled != [] {
          var last := |recycled| - 1;
          frames := frames[k := frames[k].(frame := Some(recycled[last]))];
          recycled := recycled[..last];
        } else {
          frames := frames[k := frames[k].(frame := Some(made))];
          created := created + 1;
        }
      }
      permit.Undisturbed();
    }

    method PutCell(k: nat, cell: Cell<T>)
      requires Wired() && k < |frames|
      modifies this`frames
      ensures Wired() && View() == old(View()).(frames := old(frames)[k := cell]) && permit.GaveBack(None)
    {
      hide FramePermit.Valid, Unwrapped, Words, Wrap;
      frames := frames[k := cell];
      permit.Undisturbed();
    }

    /** Read the next frame of a file into cell `k`. */
    method ReadInto(index: nat, k: nat, answer: Answer<T>, made: T) returns (fault: Option<ReadError>, progressed: bool)
      requires Wired() && index < |files| && InWindow(View(), View().files[index])
      requires k == Offset(View(), View().files[index])
      requires files[index].received < |files[index].file.content|
      modifies this`files, this`frames, this`recycled, this`created
      ensures Wired() && permit.GaveBack(None)
      ensures Outcome(Readers.PollRead(old(View()), index, answer, made), View(), fault, progressed)
    {
      hide FramePermit.Valid, Wired, Unwrapped, WithBuffer;
      SlotSeen(index);
      WithBufferKeepsRest(View(), k, made);
      var slot := files[index];
      EnsureBuffer(k, made);
      match answer {
        case Pending(prepared) =>
          PutCell(k, Cell(Some(prepared), false));
          PutSlot(index, slot.(blocked := true));
          return None, false;
        case Failed =>
          return Some(Backend), false;
        case Eof =>
          return Some(UnexpectedEof), false;
        case Done =>
          PutCell(k, Cell(Some(slot.file.content[slot.received]), true));
          PutSlot(index, slot.(received := slot.received + 1, blocked := slot.received + 1 == slot.count));
          return None, true;
      }
    }

    lemma SlotSeen(index: nat)
      requires Wired() && index < |files|
      ensures |View().files| == |files| && |starts| == |files|
      ensures View().files[index] == files[index].(start := starts[index])
      ensures files[index].start == Wrap(starts[index], modulus)
    {
    }

    /** The word offset of the next position of a file in the window is the true one. */
    lemma LiveOffset(index: nat)
      requires Wired() && index < |files| && Live(View(), index)
      ensures WrapSub(WrapAdd(files[index].start, files[index].received, modulus), emitted, modulus)
              == Offset(View(), View().files[index])
    {
      SlotSeen(index);
      WrapAddExact(starts[index], files[index].received, modulus);
      WrapSubExact(starts[index] + files[index].received, trueEmitted, modulus);
    }

    /** Poll one file; `answer` is what its backend says if it is asked, `made` a new buffer. */
    method PollFile(index: nat, answer: Answer<T>, made: T) returns (fault: Option<ReadError>, progressed: bool,
        asked: bool)
      requires Wired() && index < |files| && Live(View(), index)
      modifies this`files, this`frames, this`recycled, this`created
      ensures Wired() && permit.GaveBack(None)
      ensures Outcome(PollStep(old(View()), index, answer, made), View(), fault, progressed)
      ensures asked == Asks(old(View()), index)
    {
      hide FramePermit.Valid, Wired, Unwrapped, Live, Readers.PollRead, WrapSub, WrapAdd;
      SlotSeen(index);
      ContentSeen(View(), index);
      LiveOffset(index);
      var slot := files[index];
      if slot.blocked {
        return None, false, false;
      }
      match slot.state {
        case Opening =>
          match answer {
            case Pending(_) =>
              PutSlot(index, slot.(blocked := true));
              return None, false, true;
            case Failed =>
              if slot.retries == maxRetries {
                return Some(Backend), false, true;
              }
              PutSlot(index, slot.(retries := slot.retries + 1));
              return None, true, true;
            case _ =>
              PutSlot(index, slot.(state := Reading));
              return None, true, true;
          }
        case Reading =>
          if slot.received == slot.count {
            PutSlot(index, slot.(blocked := true));
            return None, false, false;
          }
          var offset := WrapSub(WrapAdd(slot.start, slot.received, modulus), emitted, modulus);
          if offset >= |frames| {
            return None, false, false;
          }
          if frames[offset].complete {
            return Some(InvalidFramePosition), false, false;
          }
          fault, progressed := ReadInto(index, offset, answer, made);
          return fault, progressed, true;
      }
    }

    /** Drop all I/O and capacity, and keep the error for the next read. */
    method Fail(cause: ReadError)
      requires Wired()
      modifies this`files, this`starts, this`frames, this`recycled, this`terminated, this`error, this`failed
      modifies permit`capacity, permit.budget`available, permit.budget`waiters, permit.budget.Cells()
      ensures Wired() && View() == Readers.Fail(old(View()), cause)
      ensures permit.GaveBack(Some(0))
    {
      hide FramePermit.Valid, Wired;
      DropAll();
      ShrinkGrantTo(0);
      Terminate(cause);
    }

    method DropAll()
      requires Wired()
      modifies this`files, this`starts, this`frames, this`recycled
      ensures Wired() && permit.GaveBack(None)
      ensures View() == old(View()).(files := [], frames := [], recycled := [])
    {
      hide Wired, FramePermit.Valid, FramePermit.View;
      DropFiles();
      DropBuffers();
    }

    method DropFiles()
      requires Wired()
      modifies this`files, this`starts
      ensures Wired() && permit.GaveBack(None) && View() == old(View()).(files := [])
    {
      hide FramePermit.Valid, FramePermit.View, Wrap, Words, Unwrapped;
      NoWords<T>(modulus);
      files, starts := [], [];
      permit.Undisturbed();
    }

    method DropBuffers()
      requires Wired()
      modifies this`frames, this`recycled
      ensures Wired() && permit.GaveBack(None) && View() == old(View()).(frames := [], recycled := [])
    {
      hide FramePermit.Valid, FramePermit.View, Wrap, Words, Unwrapped;
      frames := [];
      recycled := [];
      permit.Undisturbed();
    }

    method Terminate(cause: ReadError)
      requires Wired()
      modifies this`terminated, this`error, this`failed
      ensures Wired() && permit.GaveBack(None)
      ensures View() == old(View()).(terminated := true, error := Some(cause), failed := true)
    {
      hide FramePermit.Valid, Wrap, Words, Unwrapped;
      terminated := true;
      error := Some(cause);
      failed := true;
      permit.Undisturbed();
    }

    /** Poll one file and fail on its error. */
    method PollOrFail(index: nat, answer: Answer<T>, made: T) returns (faulted: bool, progressed: bool, asked: bool)
      requires Wired() && !terminated && index < |files| && Live(View(), index)
      modifies this`files, this`starts, this`frames, this`recycled, this`created, this`terminated, this`error
      modifies this`failed
      modifies permit`capacity, permit.budget`available, permit.budget`waiters, permit.budget.Cells()
      ensures Wired() && asked == Asks(old(View()), index)
      ensures View() == PollStep(old(View()), index, answer, made).0 && faulted == terminated
      ensures !faulted ==> progressed == PollStep(old(View()), index, answer, made).1 && |files| == |old(files)|
      ensures permit.GaveBack(if faulted then Some(0) else None)
    {
      hide Wired, FramePermit.Valid, FramePermit.View, PollStep, Live, Outcome;
      ghost var r := View();
      SlotSeen(index);
      var fault;
      fault, progressed, asked := PollFile(index, answer, made);
      OutcomeSeen(r, index, answer, made, View(), fault, progressed);
      PollKeepsRest(r, index, answer, made);
      FilesSeen();
      faulted := fault.Some?;
      if faulted {
        Fail(fault.value);
      }
    }

    /** The only permit of a budget never waits. */
    lemma SoleNeverWaits()
      requires Valid() && |permit.budget.permits| == 1
      ensures !permit.View().waiting
    {
      HeldSeen();
      ghost var b := permit.budget.View();
      if b.queue != [] {
        ghost var i := Budgets.BlockedHeadHasHolder(b);
      }
    }

    lemma FilesSeen()
      requires Wired() || Valid()
      ensures Wired() && |View().files| == |files|
      ensures View().terminated == terminated && View().capacity == permit.capacity && View().frames == frames
      ensures forall i :: 0 <= i < |files| ==> View().files[i].blocked == files[i].blocked
    {
    }

    /** Poll one file with whatever its backend answers, and record it. */
    method Advance(index: nat) returns (faulted: bool, progressed: bool, asked: bool)
      requires Valid() && !terminated && index < |files|
      modifies this, permit`capacity, permit.budget`available, permit.budget`waiters, permit.budget.Cells()
      ensures Valid() && cursor == old(cursor)
      ensures Advanced(old(View()), old(history), index, View(), history, faulted, progressed, asked)
      ensures !faulted ==> |files| == |old(files)| && permit.View() == old(permit.View())
      ensures Clients.Leads(permit.request.id, old(Here()), Here())
    {
      hide ReadScheduler.Here, ReadScheduler.Valid, Wired, FramePermit.Valid, FramePermit.View, Inv, Run, Coupled,
          PollStep, Live,
          Step, Clients.Leads, Clients.ReaderReturns, Budgets.Returned, FrameBudget.View;
      Reachable();
      ghost var r := View();
      FilesSeen();
      FileIsLive(r, index);
      var answer := AskBackend();
      var made: T := *;
      ghost var e := Event.PollFile(index, if Asks(r, index) then answer else Done, made);
      UnaskedPoll(r, index, answer, made);
      PollReturns(r, index, e.answer, made);
      faulted, progressed, asked := PollOrFail(index, answer, made);
      Record(e);
      Made(e);
    }

    /** Extend the window as far as the grant, the target and the known frames allow. */
    method AuthorizeFrames()
      requires Valid() && !terminated
      modifies this`frames, this`history
      ensures Valid() && View() == AuthorizeStep(old(View())) && history == old(history) + [Event.Authorize]
      ensures Clients.Leads(permit.request.id, old(Here()), Here())
    {
      hide ReadScheduler.Valid, Wired, FramePermit.Valid, Inv, Run, Coupled, Clients.Leads, Clients.ReaderReturns,
          Budgets.Returned, FrameBudget.View;
      Reachable();
      LiveDistance();
      PlainReturns(View(), Event.Authorize);
      var limit := Min(permit.capacity, window.target);
      var available := Minus(limit, |frames|);
      var remaining := WrapSub(discovered, emitted, modulus);
      var extra := Min(available, Minus(remaining, |frames|));
      AppendCells(extra);
      Record(Event.Authorize);
      Made(Event.Authorize);
    }

    method AppendCells(extra: nat)
      requires Wired()
      modifies this`frames
      ensures Wired() && View() == old(View()).(frames := old(frames) + Empty(extra))
      ensures permit.GaveBack(None)
    {
      hide FramePermit.Valid, Wrap, Words, Unwrapped;
      frames := frames + Empty(extra);
      permit.Undisturbed();
    }

    /** Let every file be polled again. */
    method UnblockFiles()
      requires Valid()
      modifies this`files, this`history
      ensures Valid() && View() == old(View()).(files := Unblocked(old(View()).files))
      ensures history == old(history) + [Event.Unblock]
      ensures Clients.Leads(permit.request.id, old(Here()), Here())
    {
      hide ReadScheduler.Valid, Wired, FramePermit.Valid, Inv, Run, Coupled, Clients.Leads, Clients.ReaderReturns,
          Budgets.Returned, FrameBudget.View;
      Reachable();
      PlainReturns(View(), Event.Unblock);
      ClearBlocked();
      Record(Event.Unblock);
      Made(Event.Unblock);
    }

    method ClearBlocked()
      requires Wired()
      modifies this`files
      ensures Wired() && View() == old(View()).(files := Unblocked(old(View()).files))
      ensures permit.GaveBack(None)
    {
      hide FramePermit.Valid, Wrap;
      var i := 0;
      while i < |files|
        invariant i <= |files| == |old(files)|
        invariant forall k :: 0 <= k < i ==> files[k] == old(files)[k].(blocked := false)
        invariant forall k :: i <= k < |files| ==> files[k] == old(files)[k]
      {
        files := files[i := files[i].(blocked := false)];
        i := i + 1;
      }
      permit.Undisturbed();
      assert Unwrapped(files, starts) == Unblocked(Unwrapped(old(files), starts));
    }

    /** Drop the files whose last frame has been handed out; the comparison is done on words. */
    method RetireFiles()
      requires Wired() && EndsLive(View())
      modifies this`files, this`starts, this`cursor
      ensures Wired() && View() == Retire(old(View())) && permit.GaveBack(None)
      ensures |files| <= |old(files)| && cursor == Minus(old(cursor), |old(files)| - |files|)
    {
      hide FramePermit.Valid, Wired;
      while files != [] && emitted == WrapAdd(files[0].start, files[0].count, modulus)
        invariant Wired() && EndsLive(View()) && permit.GaveBack(None)
        invariant Retire(View()) == Retire(old(View()))
        invariant |files| <= |old(files)| && cursor == Minus(old(cursor), |old(files)| - |files|)
        decreases |files|
      {
        HeadEnds();
        DropHead();
      }
      HeadEnds();
      RetireStops(View());
    }

    lemma HeadEnds()
      requires Wired() && EndsLive(View())
      ensures |View().files| == |files|
      ensures files != [] ==>
                (emitted == WrapAdd(files[0].start, files[0].count, modulus)
                 <==> View().emitted == View().files[0].start + View().files[0].count)
    {
      if files != [] {
        SlotSeen(0);
        WrapAddExact(starts[0], files[0].count, modulus);
        WrapEqual(starts[0] + files[0].count, trueEmitted, modulus);
      }
    }

    method DropHead()
      requires Wired() && files != []
      modifies this`files, this`starts, this`cursor
      ensures Wired() && View() == old(View()).(files := old(View()).files[1..]) && permit.GaveBack(None)
      ensures |files| == |old(files)| - 1 && cursor == Minus(old(cursor), 1)
    {
      hide FramePermit.Valid, Wrap, Words, Unwrapped;
      SameLength(files, starts, modulus);
      UnwrappedTail(files, starts);
      WordsTail(files, starts, modulus);
      files, starts := files[1..], starts[1..];
      cursor := Minus(cursor, 1);
      permit.Undisturbed();
    }

    // --- one call ----------------------------------------------------------------------------------

    /** Ask the budget for another batch if the grant is below its goal. */
    method Reserve()
      requires Valid() && !terminated && files != []
      modifies this`history, permit`capacity, permit.budget`available, permit.budget`waiters, permit.request
      ensures Valid() && View() == old(View()).(capacity := permit.capacity)
      ensures old(history) <= history && Quiet(history, |old(history)|)
      ensures permit.View().capacity == 0 ==> permit.View().waiting
      ensures permit.request.id < |old(Here()).budget.permits|
      ensures View().capacity == RaisedTo(old(Here()).budget, permit.request.id, window.target)
      ensures Clients.Leads(permit.request.id, old(Here()), Here())
    {
      hide ReadScheduler.Valid, Wired, FramePermit.Valid, Inv, Run, Coupled, Budgets.GrowSeen, Clients.Leads,
          Budgets.Grow, FrameBudget.View, RaisedTo, FramePermit.View, Unwrapped;
      Reachable();
      FilesSeen();
      HeldSeen();
      BudgetSeen();
      ghost var b, i := permit.budget.View(), permit.request.id;
      GrowsTo(b, i, View());
      Clients.LeadsNowhere(i, Here());
      ghost var r, p := View(), permit.View();
      PositiveGoal(r);
      var target := Min(window.target, permit.budget.total);
      if permit.capacity < target {
        var minimum := Min(permit.capacity + Min(target, 32), target);
        var result := GrowGrantTo(minimum, target);
        GrowOutcome(r, p, permit.View(), result);
        HeldSeen();
        BudgetSeen();
        Clients.ReadLeads(i, b, r, GrowGrant(permit.capacity), permit.budget.View());
        RunAppend(initial, history, GrowGrant(permit.capacity));
        Record(GrowGrant(permit.capacity));
        Restore();
      }
    }

    lemma BudgetSeen()
      requires Wired()
      ensures permit.budget.View().total == permit.budget.total == View().total
      ensures Budgets.Inv(permit.budget.View())
      ensures permit.View().capacity == permit.capacity == View().capacity
      ensures Here().budget == permit.budget.View() && permit.request.id < |Here().budget.permits|
    {
    }

    method NextIndex(count: nat) returns (index: nat)
      requires Valid() && count == |files| > 0
      modifies this`cursor
      ensures Valid() && View() == old(View()) && permit.View() == old(permit.View()) && Here() == old(Here())
      ensures index == old(cursor) % count && cursor == (index + 1) % count && index < count
    {
      index := cursor % count;
      cursor := (index + 1) % count;
      permit.Undisturbed();
    }

    /** Poll the file under the cursor and move the cursor on. */
    method Turn() returns (faulted: bool, progressed: bool, asked: bool, ghost index: nat)
      requires Valid() && !terminated && files != []
      modifies this, permit`capacity, permit.budget`available, permit.budget`waiters, permit.budget.Cells()
      ensures Valid() && index == old(cursor) % |old(files)| && cursor == (index + 1) % |old(files)|
      ensures Advanced(old(View()), old(history), index, View(), history, faulted, progressed, asked)
      ensures !faulted ==> |files| == |old(files)| && permit.View() == old(permit.View())
      ensures Clients.Leads(permit.request.id, old(Here()), Here())
    {
      hide *;
      var k := NextIndex(|files|);
      index := k;
      faulted, progressed, asked := Advance(k);
    }

    /** One pass over the files, starting where the last one stopped; it ends early when the polls
        of this call are used up. */
    method Pass(remaining: nat, ghost from: nat, ghost limit: nat, ghost origin: nat)
      returns (faulted: bool, progressed: bool, left: nat)
      requires Valid() && !terminated && files != [] && remaining > 0
      requires from <= |history| && Rotates(Turns(history, from), origin, cursor % |files|, |files|)
      requires Driving(initial, from, View(), history, remaining, limit)
      modifies this, permit`capacity, permit.budget`available, permit.budget`waiters, permit.budget.Cells()
      ensures Valid() && old(history) <= history && PendingOnce(initial, history, from)
      ensures Polls(initial, history, from) <= limit
      ensures (faulted <==> terminated) && Carried(old(View()), View()) && (faulted ==> Fault(history, |old(history)|))
      ensures !faulted ==> Driving(initial, from, View(), history, left, limit)
      ensures !faulted ==> |files| == |old(files)| && permit.View() == old(permit.View())
      ensures !faulted && progressed ==> left < remaining
      ensures !faulted ==> cursor < |files| && Rotates(Turns(history, from), origin, cursor % |files|, |files|)
      ensures !faulted && (left > 0 || remaining >= |files|) ==>
                && Rounds(history, |old(history)|, old(cursor) % |files|, |files|, |files|)
                && (!progressed ==> AllStuck(View()))
      ensures Clients.Leads(permit.request.id, old(Here()), Here())
    {
      hide *;
      ghost var s, i := Here(), permit.request.id;
      Clients.LeadsNowhere(i, s);
      faulted, progressed, left := false, false, remaining;
      var count := |files|;
      var n := 0;
      ghost var h0, first, r0 := history, cursor % count, View();
      FilesSeen();
      CarriedSelf(r0);
      PassStarts(initial, from, r0, h0, left, limit, first);
      while n < count && left > 0
        invariant Valid() && |files| == count && permit.View() == old(permit.View()) && 0 <= n <= count
        invariant !faulted && !terminated && first < count && remaining <= left + n && left <= remaining
        invariant progressed ==> left < remaining
        invariant cursor % count == RingAt(first, n, count)
        invariant from <= |history| && Rotates(Turns(history, from), origin, cursor % count, count)
        invariant 0 < n ==> cursor < count
        invariant Passing(initial, from, View(), h0, history, left, limit, progressed, first, n, count)
        invariant Carried(r0, View()) && Clients.Leads(i, s, Here())
      {
        ghost var r, h, t, was := View(), history, Here(), cursor;
        var moved, asked;
        ghost var index;
        Reachable();
        faulted, moved, asked, index := Turn();
        Clients.LeadsOn(i, s, t, Here());
        Reachable();
        RingNext(first, n, count);
        PassTurn(initial, from, r, h0, h, left, limit, progressed, first, n, count, index, View(), history,
            faulted, moved, asked);
        TurnSeen(r0, r, h, index, View(), history, faulted, moved, asked);
        TurnsOn(r, h, from, index, View(), history, faulted, moved, asked);
        RotatesOn(Turns(h, from), origin, was, index, count);
        if faulted {
          break;
        }
        if asked {
          left := left - 1;
        }
        progressed := progressed || moved;
        n := n + 1;
      }
      if !faulted {
        FilesSeen();
        if n == count {
          PassEnds(initial, from, View(), h0, history, left, limit, progressed, first, count);
        }
        PassSeen(initial, from, View(), h0, history, left, limit, progressed, first, n, count);
      }
    }

    /** Nothing can be retired while driving: the next position always lies in the head file. */
    method RetireNone()
      requires Valid() && !terminated
      modifies this`files, this`starts, this`cursor
      ensures Valid() && View() == old(View()) && permit.View() == old(permit.View()) && |files| == |old(files)|
      ensures Here() == old(Here()) && cursor == old(cursor)
    {
      hide ReadScheduler.Valid, Wired, FramePermit.Valid, Inv, Run, Coupled, Retire, EndsLive;
      Reachable();
      HeadIsNeeded(View());
      FilesSeen();
      RetireFiles();
      FilesSeen();
      Restore();
    }

    method AnyUnblocked() returns (any: bool)
      requires Valid() && files != []
      ensures Valid() && (if any then !AllSetAside(View()) else AllStuck(View())) && Here() == old(Here())
    {
      hide Valid, Wired;
      FilesSeen();
      any := false;
      var i := 0;
      while i < |files|
        invariant 0 <= i <= |files| && (any <==> exists k :: 0 <= k < i && !files[k].blocked)
      {
        any := any || !files[i].blocked;
        i := i + 1;
      }
    }

    /** Let every file that can move do so, within the polls one call may make. */
    method Drive() returns (faulted: bool, selfWoke: bool)
      requires Valid() && !terminated && files != []
      modifies this, permit`capacity, permit.budget`available, permit.budget`waiters, permit.budget.Cells()
      ensures Valid() && old(history) <= history && PendingOnce(initial, history, |old(history)|)
      ensures Polls(initial, history, |old(history)|) <= Max(MAX_POLL_OPS, |old(files)|)
      ensures selfWoke ==> Polls(initial, history, |old(history)|) == Max(MAX_POLL_OPS, |old(files)|)
      ensures (faulted <==> terminated) && Carried(old(View()), View()) && (faulted ==> Fault(history, |old(history)|))
      ensures !faulted ==> |files| == |old(files)| && VisitsAll(history, |old(history)|, |files|)
      ensures !faulted ==>
                cursor < |files| && Rotates(Turns(history, |old(history)|), old(cursor) % |files|, cursor, |files|)
      ensures !faulted ==>
                Progressed(initial, old(Here()).budget, permit.request.id, history, |old(history)|, !selfWoke)
      ensures !faulted && !selfWoke && FrontMissing(View()) ==>
                HeadAwaits(initial, View(), permit.View(), history, |old(history)|)
      ensures Clients.Leads(permit.request.id, old(Here()), Here())
    {
      hide *;
      ghost var s, i := Here(), permit.request.id;
      ghost var from, r0 := |history|, View();
      ghost var h0 := history;
      selfWoke := false;
      Reachable();
      Prepare();
      Reachable();
      CarriedSeen(r0, View());
      var remaining := Max(MAX_POLL_OPS, |files|);
      ghost var limit, at, first, started := remaining, |history|, cursor % |files|, false;
      DriveStarts(initial, from, View(), history, limit);
      NoTurns(history, from, cursor % |files|, |files|);
      LimitSeen(|files|);
      while true
        invariant Valid() && !terminated && |files| == |old(files)| && old(history) <= history
        invariant 0 < remaining && Driving(initial, from, View(), history, remaining, limit) && Carried(r0, View())
        invariant permit.View().capacity == 0 ==> permit.View().waiting
        invariant i < |s.budget.permits| && permit.View().capacity == RaisedTo(s.budget, i, r0.window.target)
        invariant Rotates(Turns(history, from), old(cursor) % |files|, cursor % |files|, |files|)
        invariant !selfWoke && Clients.Leads(i, s, Here())
        invariant from <= at <= |history| && Quiet(history[..at], from)
        invariant if started then Rounds(history, at, first, |files|, |files|)
                  else |history| == at && cursor % |files| == first && remaining >= |files|
        decreases remaining
      {
        var progressed, done;
        ghost var h, r, t := history, View(), Here();
        faulted, progressed, remaining := Pass(remaining, from, limit, old(cursor) % |files|);
        Clients.LeadsOn(i, s, t, Here());
        FaultStays(history, |h|, history, from);
        CarriedTrans(r0, r, View());
        if faulted {
          return;
        }
        RoundsStay(h, history, at, first, |files|, from);
        started, h, t := true, history, Here();
        done, selfWoke := Rest(remaining, progressed, from, limit);
        QuietTurns(h, history, from);
        Clients.LeadsOn(i, s, t, Here());
        RoundsStay(h, history, at, first, |files|, from);
        DrivingSeen(initial, from, View(), history, remaining, limit);
        if done {
          Reachable();
          CarriedSeen(r0, View());
          SmallMod(cursor, |files|);
          ProgressedNow(initial, s.budget, i, history, from, !selfWoke, View(), remaining);
          return;
        }
      }
    }

    /** Between passes: stop when the polls are used up or nothing moved, else extend the window. */
    method Rest(remaining: nat, progressed: bool, ghost from: nat, ghost limit: nat)
      returns (done: bool, selfWoke: bool)
      requires Valid() && !terminated && files != []
      requires Driving(initial, from, View(), history, remaining, limit)
      requires permit.View().capacity == 0 ==> permit.View().waiting
      requires !progressed && remaining > 0 ==> AllStuck(View())
      modifies this
      ensures Valid() && View() == old(View()) && permit.View() == old(permit.View()) && old(history) <= history
      ensures !terminated && |files| == |old(files)| && Driving(initial, from, View(), history, remaining, limit)
      ensures cursor == old(cursor) && Quiet(history, |old(history)|)
      ensures done <==> remaining == 0 || !progressed
      ensures done ==> if selfWoke then !AllSetAside(View()) else AllStuck(View())
      ensures done && !selfWoke && FrontMissing(View()) ==> HeadAwaits(initial, View(), permit.View(), history, from)
      ensures selfWoke ==> done && Polls(initial, history, from) == limit
      ensures Clients.Leads(permit.request.id, old(Here()), Here())
    {
      hide *;
      ghost var s := Here();
      Clients.LeadsNowhere(permit.request.id, s);
      Reachable();
      DrivingSeen(initial, from, View(), history, remaining, limit);
      if remaining == 0 {
        QuietEvent(history, Event.Authorize);
        selfWoke := AnyUnblocked();
        StoppedFrontWaits(initial, from, View(), history, remaining, limit, permit.View(), !selfWoke);
        return true, selfWoke;
      }
      RetireNone();
      QuietEvent(history, Event.Authorize);
      AuthorizeAgain(initial, from, View(), history, remaining, limit);
      AuthorizeFrames();
      Reachable();
      StoppedFrontWaits(initial, from, View(), history, remaining, limit, permit.View(), !progressed);
      return !progressed, false;
    }

    /** Reserve, authorize, and let every file be polled again. */
    method Prepare()
      requires Valid() && !terminated && files != []
      modifies this, permit`capacity, permit.budget`available, permit.budget`waiters, permit.request
      ensures Valid() && !terminated && |files| == |old(files)| && cursor == old(cursor)
      ensures old(history) <= history && Quiet(history, |old(history)|)
      ensures Run(initial, history) == Some(View()) && Extra(View()) == 0 && Fresh(View())
      ensures Carried(old(View()), View())
      ensures permit.View().capacity == 0 ==> permit.View().waiting
      ensures permit.request.id < |old(Here()).budget.permits|
      ensures permit.View().capacity == RaisedTo(old(Here()).budget, permit.request.id, View().window.target)
      ensures Clients.Leads(permit.request.id, old(Here()), Here())
    {
      hide *;
      ghost var r0, h0, s, i := View(), history, Here(), permit.request.id;
      FilesSeen();
      ViewSeen();
      Reserve();
      Reachable();
      ghost var r, h, t := View(), history, Here();
      AuthorizeFrames();
      ghost var u := Here();
      UnblockFiles();
      Clients.LeadsOn(i, s, t, u);
      Clients.LeadsOn(i, s, u, Here());
      PreparedSeen(r0, h0, r, h, history);
      Reachable();
      CarriedSeen(r0, View());
    }

    /** Nothing is admitted: hold no capacity, and end once input is closed. */
    method FinishEmpty()
      requires Valid() && !terminated && files == []
      modifies this, permit`capacity, permit.budget`available, permit.budget`waiters, permit.budget.Cells()
      ensures Valid() && View() == old(View()).(capacity := 0, terminated := closed) && closed == old(closed)
      ensures history == old(history) + [Finish] && files == []
      ensures MayRest(permit.View())
      ensures Clients.Leads(permit.request.id, old(Here()), Here())
    {
      hide ReadScheduler.Here, ReadScheduler.Valid, Wired, FramePermit.Valid, FramePermit.View, Inv, Run, Coupled,
          Clients.Leads,
          Budgets.Returned, FrameBudget.View;
      Reachable();
      RestSeen(View(), permit.View());
      CapacitySeen();
      if permit.capacity > 0 {
        ShrinkGrantTo(0);
        CapacitySeen();
      }
      EndIfClosed();
      Record(Finish);
      Made(Finish);
    }

    method EndIfClosed()
      requires Wired() && files == []
      modifies this`terminated
      ensures Wired() && View() == old(View()).(terminated := closed) && permit.GaveBack(None)
    {
      hide FramePermit.Valid, FramePermit.View, Wrap, Words, Unwrapped;
      terminated := closed;
      permit.Undisturbed();
    }

    /** Advance openings and authorized reads, consuming no output. Unless it wakes itself, the
        caller may wait: the input is empty and open, or the next frame is awaited from its backend
        or from the budget. */
    method PollProgress() returns (selfWoke: bool)
      requires Valid()
      modifies this, permit`capacity, permit.budget`available, permit.budget`waiters, permit.budget.Cells()
      ensures Valid() && old(history) <= history && Carried(old(View()), View())
      ensures PendingOnce(initial, history, |old(history)|)
      ensures Polls(initial, history, |old(history)|) <= Max(MAX_POLL_OPS, |old(files)|)
      ensures selfWoke ==> Polls(initial, history, |old(history)|) == Max(MAX_POLL_OPS, |old(files)|)
      ensures !terminated && files != [] ==> VisitsAll(history, |old(history)|, |files|)
      ensures Progressed(initial, old(Here()).budget, permit.request.id, history, |old(history)|, !selfWoke)
      ensures !terminated && files != [] ==>
                cursor < |files| && Rotates(Turns(history, |old(history)|), old(cursor) % |files|, cursor, |files|)
      ensures !terminated && !selfWoke && FrontMissing(View()) ==>
                WaitCause(initial, View(), permit.View(), history, |old(history)|)
      ensures old(terminated) ==> terminated && error == old(error) && history == old(history)
      ensures !terminated ==> |files| == |old(files)|
      ensures old(error).Some? ==> old(terminated)
      ensures error.Some? && old(error).None? ==> Fault(history, |old(history)|)
      ensures old(files) == [] && !old(terminated) ==> MayRest(permit.View()) && terminated == closed
      ensures Clients.Leads(permit.request.id, old(Here()), Here())
    {
      hide *;
      Clients.LeadsNowhere(permit.request.id, Here());
      selfWoke := false;
      Reachable();
      NothingPolled(initial, history, View());
      ReaderSeen(View());
      ViewSeen();
      FilesSeen();
      BudgetSeen();
      if terminated {
        NothingToProgress(initial, Here().budget, permit.request.id, history, |history|, View());
        return;
      }
      if files == [] {
        FinishEmpty();
        FinishSeen(initial, old(View()), old(history), View(), permit.View());
        Reachable();
        ErrorSeen(old(View()), View());
        ViewSeen();
        FilesSeen();
        NothingToProgress(initial, old(Here()).budget, permit.request.id, history, |old(history)|, View());
        return;
      }
      var faulted;
      faulted, selfWoke := Drive();
      Reachable();
      DriveSeen(initial, View(), permit.View(), history, |old(history)|);
      ReaderSeen(View());
      ViewSeen();
      if faulted {
        NothingToProgress(initial, old(Here()).budget, permit.request.id, history, |old(history)|, View());
      }
    }

    /** Hand out the first frame, taking the caller's old buffer for reuse. */
    method EmitFront(given: T) returns (frame: T)
      requires Valid() && !terminated && frames != [] && frames[0].complete && frames[0].frame.Some?
      modifies this, permit`capacity, permit.budget`available, permit.budget`waiters, permit.budget.Cells()
      ensures Valid() && View() == EmitStep(old(View()), given) && history == old(history) + [Emit(given)]
      ensures frame == old(frames[0].frame.value)
      ensures |files| <= |old(files)| && cursor == Minus(old(cursor), |old(files)| - |files|)
      ensures Clients.Leads(permit.request.id, old(Here()), Here())
    {
      hide ReadScheduler.Here, ReadScheduler.Valid, Wired, FramePermit.Valid, FramePermit.View, Inv, Run, Coupled,
          Popped, Retire,
          Adjust, EndsLive, Excessive, Clients.Leads, Clients.ReaderReturns, Budgets.Returned, FrameBudget.View;
      Reachable();
      ghost var r := View();
      FramesSeen();
      PoppedEndsLive(r, given);
      EmitReturns(r, given);
      frame := frames[0].frame.value;
      PopFront(given);
      RetireFiles();
      AdjustCapacity();
      Record(Emit(given));
      Made(Emit(given));
    }

    lemma FramesSeen()
      requires Wired()
      ensures View().frames == frames
    {
    }

    lemma ViewSeen()
      ensures View().frames == frames && View().error == error && View().delivered == delivered
      ensures View().closed == closed && View().window == window
      ensures View().admitted == admitted && View().emitted == trueEmitted && View().terminated == terminated
    {
    }

    lemma ConfigSeen()
      ensures View().maxRetries == maxRetries && View().modulus == modulus
    {
    }

    method PopFront(given: T)
      requires Wired() && frames != [] && frames[0].frame.Some?
      modifies this`frames, this`emitted, this`trueEmitted, this`recycled, this`outputs
      ensures Wired() && View() == Popped(old(View()), given) && permit.GaveBack(None)
    {
      hide Wired, FramePermit.Valid, FramePermit.View;
      TakeCell(given);
      StepFront();
    }

    method TakeCell(given: T)
      requires Wired() && frames != [] && frames[0].frame.Some?
      modifies this`frames, this`recycled, this`outputs
      ensures Wired() && permit.GaveBack(None)
      ensures View() == old(View()).(frames := old(frames)[1..], recycled := old(recycled) + [given],
                                     outputs := old(outputs) + [old(frames[0].frame.value)])
    {
      hide FramePermit.Valid, FramePermit.View, Words, Unwrapped, Wrap;
      outputs := outputs + [frames[0].frame.value];
      frames := frames[1..];
      recycled := recycled + [given];
      permit.Undisturbed();
    }

    method StepFront()
      requires Wired()
      modifies this`emitted, this`trueEmitted
      ensures Wired() && permit.GaveBack(None) && View() == old(View()).(emitted := old(trueEmitted) + 1)
    {
      hide FramePermit.Valid, FramePermit.View, Words, Unwrapped, Wrap, WrapAdd;
      WrapAddExact(trueEmitted, 1, modulus);
      emitted := WrapAdd(emitted, 1, modulus);
      trueEmitted := trueEmitted + 1;
      permit.Undisturbed();
    }

    /** Return capacity beyond what the window needs, once it is worth a batch or growth is over. */
    method AdjustCapacity()
      requires Wired()
      modifies permit`capacity, permit.budget`available, permit.budget`waiters, permit.budget.Cells()
      ensures Wired() && View() == Adjust(old(View()))
      ensures permit.GaveBack(Given(old(View())))
    {
      hide Wired, FramePermit.Valid, FramePermit.View;
      var keep := Max(window.target, |frames|);
      var excess := Minus(permit.capacity, keep);
      CapacitySeen();
      if excess >= 32 || (excess > 0 && keep == window.target) {
        ShrinkGrantTo(keep);
        CapacitySeen();
      }
    }

    lemma CapacitySeen()
      requires Wired()
      ensures permit.View().capacity == permit.capacity
    {
    }

    method TakeFailure() returns (cause: ReadError)
      requires Valid() && error.Some?
      modifies this`error, this`delivered, this`history
      ensures Valid() && cause == old(error.value) && history == old(history) + [TakeError]
      ensures View() == old(View()).(error := None, delivered := old(delivered) + 1)
      ensures Clients.Leads(permit.request.id, old(Here()), Here())
    {
      hide ReadScheduler.Valid, Wired, FramePermit.Valid, FramePermit.View, Inv, Run, Coupled,
          Clients.Leads, Clients.ReaderReturns,
          Budgets.Returned, FrameBudget.View;
      Reachable();
      PlainReturns(View(), TakeError);
      cause := error.value;
      ClearError();
      Record(TakeError);
      Made(TakeError);
    }

    method ClearError()
      requires Wired()
      modifies this`error, this`delivered
      ensures Wired() && permit.GaveBack(None)
      ensures View() == old(View()).(error := None, delivered := old(delivered) + 1)
    {
      hide FramePermit.Valid, FramePermit.View, Wrap, Words, Unwrapped;
      error := None;
      delivered := delivered + 1;
      permit.Undisturbed();
    }

    /** Drive I/O and exchange the next complete frame with `output`. Frames arrive exactly as a
        sequential reader of the admitted files would deliver them; an error is reported once, and
        the end only after it, or after the last declared frame of a closed input. */
    method PollRead(output: T) returns (r: ReadPoll<T>, selfWoke: bool)
      requires Valid()
      modifies this, permit`capacity, permit.budget`available, permit.budget`waiters, permit.budget.Cells()
      ensures Valid() && old(history) <= history && admitted == old(admitted) && closed == old(closed)
      ensures PendingOnce(initial, history, |old(history)|)
      ensures Polls(initial, history, |old(history)|) <= Max(MAX_POLL_OPS, |old(files)|)
      ensures selfWoke ==> Polls(initial, history, |old(history)|) == Max(MAX_POLL_OPS, |old(files)|)
      ensures r.Frame? ==>
                && old(trueEmitted) < |Flatten(Contents(admitted))|
                && r.frame == Flatten(Contents(admitted))[old(trueEmitted)]
      ensures trueEmitted == old(trueEmitted) + (if r.Frame? then 1 else 0)
      ensures delivered == old(delivered) + (if r.Error? then 1 else 0) && delivered <= 1
      ensures r.Error? || r.End? ==> terminated && error.None?
      ensures r.Error? && old(error).None? ==> Fault(history, |old(history)|)
      ensures r.End? ==> delivered == 1 || (closed && trueEmitted == |Flatten(Contents(admitted))|)
      ensures old(error).Some? ==> r == Error(old(error).value)
      ensures old(terminated) && old(error).None? ==> r.End?
      ensures r.Waiting? ==> !terminated && FrontMissing(View()) && |files| == |old(files)|
      ensures View().window == old(View()).window
      ensures r.Waiting? && files != [] ==>
                Rotates(Turns(history, |old(history)|), old(cursor) % |files|, cursor, |files|)
      ensures r.Frame? ==>
                && 0 < |old(files)| && |files| <= |old(files)|
                && exists next: nat ::
                     && Rotates(Turns(history, |old(history)|), old(cursor) % |old(files)|, next, |old(files)|)
                     && cursor == Minus(next, |old(files)| - |files|)
      ensures ProgressedFirst(initial, old(Here()).budget, permit.request.id, history, |old(history)|, r, selfWoke)
      ensures r.Waiting? && !selfWoke ==> WaitCause(initial, View(), permit.View(), history, |old(history)|)
      ensures Clients.Leads(permit.request.id, old(Here()), Here())
    {
      hide *;
      ghost var s, i := Here(), permit.request.id;
      ViewSeen();
      selfWoke := PollProgress();
      ghost var t := Here();
      Reachable();
      ViewSeen();
      CarriedSeen(old(View()), View());
      WindowStays(View(), output);
      ReaderSeen(View());
      ghost var v, h, from := View(), history, |old(history)|;
      QuietStep(initial, h, from, TakeError);
      QuietStep(initial, h, from, Emit(output));
      QuietTurn(h, from, Emit(output));
      ProgressedSeen(initial, s.budget, i, h, from, selfWoke, output);
      if error.Some? {
        var cause := TakeFailure();
        Clients.LeadsOn(i, s, t, Here());
        FaultStays(h, from, history, from);
        ViewSeen();
        return Error(cause), false;
      }
      if terminated {
        return End, false;
      }
      if frames == [] || !frames[0].complete {
        FrontSeen(View());
        return Waiting, selfWoke;
      }
      FrontFrame(v, output);
      var frame := EmitFront(output);
      Clients.LeadsOn(i, s, t, Here());
      ViewSeen();
      return Frame(frame), false;
    }
  }
}
