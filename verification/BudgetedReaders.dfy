/** How a reader's state and its budget permit fit together. */
module BudgetedReaders {
  import opened Naturals
  import opened Segmentation
  import opened Readers
  import opened ReadPasses
  import opened Rings
  import Budgets

  /** The grant a reader aims for. */
  function Goal<T>(r: Reader<T>): nat {
    Min(r.window.target, r.total)
  }

  /** A reader never asks for, nor is granted, more than its goal; an empty one that holds nothing
      asks for nothing. */
  ghost predicate Asking<T>(r: Reader<T>, p: Budgets.Permit) {
    p.waiting || p.granted > 0 ==>
      && !r.terminated && (r.files == [] ==> r.capacity > 0)
      && (p.waiting ==> p.minimum <= p.desired && p.capacity + p.desired <= Goal(r))
      && (p.granted > 0 ==> p.capacity + p.granted <= Goal(r))
  }

  ghost predicate Coupled<T>(r: Reader<T>, p: Budgets.Permit) {
    p.live && p.capacity == r.capacity && Asking(r, p)
  }

  /** Whatever the other permits of the budget do, and for however long, the reader's own coupling
      survives. */
  lemma OthersKeepCoupled<T>(b: Budgets.Budget, c: Budgets.Budget, i: nat, r: Reader<T>)
    requires Budgets.Inv(b) && Budgets.Spares(b, c, i) && i < |b.permits| && Coupled(r, b.permits[i])
    ensures Budgets.Inv(c) && i < |c.permits| && Coupled(r, c.permits[i])
  {
    hide Budgets.Inv, Budgets.Spares;
    Budgets.OthersOnlyServe(b, c, i);
  }

  /** The size of the next batch a reader asks the budget for. */
  function Batch<T>(r: Reader<T>): nat {
    Min(r.capacity + Min(Goal(r), 32), Goal(r))
  }

  /** A growth request of a reader below its goal is valid, stays within the goal, and leaves an
      empty-handed reader either with capacity or queued. */
  lemma GrowOutcome<T>(r: Reader<T>, p: Budgets.Permit, q: Budgets.Permit, result: Budgets.GrowResult)
    requires Readers.Inv(r) && Coupled(r, p) && !r.terminated && r.files != [] && r.capacity < Goal(r)
    requires Budgets.GrowSeen(p, q, result, Batch(r), Goal(r), r.total)
    ensures result != Budgets.Invalid
    ensures r.capacity <= q.capacity <= Goal(r)
    ensures Coupled(r.(capacity := q.capacity), q)
    ensures q.capacity == 0 ==> q.waiting
  {
  }

  /** The grant that a reader of window `target` holds once it has asked budget `b` for more. Below its
      goal it takes all that is missing if that is free and nobody waits, or else a batch of 32 frames,
      if only that is; otherwise it keeps what it has and waits. */
  ghost function RaisedTo(b: Budgets.Budget, i: nat, target: nat): nat
    requires i < |b.permits|
  {
    var p := b.permits[i];
    var goal := Min(target, b.total);
    var batch := Min(p.capacity + 32, goal);
    var claimed := p.capacity + p.granted;
    if p.capacity >= goal then p.capacity
    else if claimed >= batch || b.queue != [] then claimed
    else if goal <= claimed + b.available then goal
    else if batch <= claimed + b.available then batch
    else claimed
  }

  lemma GrowsTo<T>(b: Budgets.Budget, i: nat, r: Reader<T>)
    requires Budgets.Inv(b) && Budgets.Usable(b, i) && r.total == b.total
    requires r.capacity == b.permits[i].capacity
    ensures i < |b.permits|
    ensures if r.capacity < Goal(r) then
              Budgets.Grow(b, i, Batch(r), Goal(r)).0.permits[i].capacity == RaisedTo(b, i, r.window.target)
            else r.capacity == RaisedTo(b, i, r.window.target)
  {
    if b.permits[i].waiting {
      assert i in b.queue;
    }
  }

  /** The call that began after event `from`, with the budget at `b`, has progressed as far as it may:
      the grant was raised, each file was polled, every position granted has a cell, and either no
      file can move or the polls of the call are used up with some file not set aside. */
  ghost predicate Progressed<T>(init: Reader<T>, b: Budgets.Budget, i: nat, h: seq<Event<T>>, from: nat,
                                settled: bool)
  {
    && Run(init, h).Some? && i < |b.permits|
    && var r := Run(init, h).value;
       !r.terminated && r.files != [] ==>
         && r.capacity == RaisedTo(b, i, r.window.target) && WindowFilled(r)
         && VisitsAll(h, from, |r.files|)
         && if settled then AllStuck(r) else Polls(init, h, from) == Max(256, |r.files|) && !AllSetAside(r)
  }

  lemma ProgressedNow<T>(init: Reader<T>, b: Budgets.Budget, i: nat, h: seq<Event<T>>, from: nat, settled: bool,
                         r: Reader<T>, left: nat)
    requires Driving(init, from, r, h, left, Max(MAX_POLL_OPS, |r.files|)) && VisitsAll(h, from, |r.files|)
    requires i < |b.permits| && r.capacity == RaisedTo(b, i, r.window.target)
    requires if settled then AllStuck(r) else Polls(init, h, from) == Max(MAX_POLL_OPS, |r.files|) && !AllSetAside(r)
    ensures Progressed(init, b, i, h, from, settled)
  {
    NoExtraFills(r);
  }

  lemma NothingToProgress<T>(init: Reader<T>, b: Budgets.Budget, i: nat, h: seq<Event<T>>, from: nat, r: Reader<T>)
    requires Run(init, h) == Some(r) && i < |b.permits| && (r.terminated || r.files == [])
    ensures forall settled :: Progressed(init, b, i, h, from, settled)
  {
  }

  /** Events that change neither the grant, the window nor the end of the reader. */
  lemma CoupledStays<T>(r: Reader<T>, q: Reader<T>, p: Budgets.Permit)
    requires Coupled(r, p) && q.capacity == r.capacity && Goal(q) == Goal(r) && q.terminated == r.terminated
    requires q.files == [] ==> r.files == [] || r.capacity > 0
    ensures Coupled(q, p)
  {
  }

  lemma PollCoupled<T>(r: Reader<T>, p: Budgets.Permit, i: nat, answer: Answer<T>, made: T)
    requires Coupled(r, p) && i < |r.files| && !r.terminated
    ensures var q := PollStep(r, i, answer, made).0;
            Coupled(q, if q.terminated then Budgets.Cancelled(p, 0) else p)
  {
    hide PollStep;
    PollKeepsRest(r, i, answer, made);
    if PollStep(r, i, answer, made).0.terminated {
      PollTerminates(r, i, answer, made);
    }
  }

  lemma PollTerminates<T>(r: Reader<T>, i: nat, answer: Answer<T>, made: T)
    requires i < |r.files| && !r.terminated && PollStep(r, i, answer, made).0.terminated
    ensures PollStep(r, i, answer, made).0.capacity == 0
  {
  }

  /** The permit after capacity has been adjusted. */
  ghost function Adjusted<T>(r: Reader<T>, p: Budgets.Permit): Budgets.Permit {
    if Excessive(r.(capacity := p.capacity)) then Budgets.Cancelled(p, Max(r.window.target, |r.frames|)) else p
  }

  lemma EmitCoupled<T>(r: Reader<T>, p: Budgets.Permit, given: T)
    requires Inv(r) && !r.terminated && Coupled(r, p) && r.frames != [] && r.frames[0].complete
    requires r.frames[0].frame.Some?
    ensures Coupled(EmitStep(r, given), Adjusted(Retire(Popped(r, given)), p))
  {
    NonemptyWindow(r);
    EmitChanges(r, given);
    hide Inv, Layout, Retire;
  }

  lemma FinishCoupled<T>(r: Reader<T>, p: Budgets.Permit)
    requires Coupled(r, p) && r.files == [] && !r.terminated
    ensures var q := if p.capacity > 0 then Budgets.Cancelled(p, 0) else p;
            Coupled(r.(capacity := 0, terminated := r.closed), q) && MayRest(q)
  {
  }

  lemma WindowCoupled<T>(r: Reader<T>, p: Budgets.Permit, window: Window)
    requires Coupled(r, p)
    ensures Coupled(WindowStep(r, window), Budgets.Cancelled(p, Min(p.capacity, Max(window.target, |r.frames|))))
  {
  }

  lemma PushCoupled<T>(r: Reader<T>, p: Budgets.Permit, file: Source<T>)
    requires Coupled(r, p)
    ensures Coupled(PushStep(r, file), p)
  {
    CoupledStays(r, PushStep(r, file), p);
  }
}
