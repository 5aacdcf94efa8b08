/** Writers drawing on one shared budget: how a writer's state and its permit fit together, and
    why writers that retain whole files for replay cannot deadlock on the budget. */
module BudgetedWriters {
  import opened Naturals
  import opened Segmentation
  import opened WriteSlots
  import opened Writers
  import Budgets

  /** A writer only asks for the reservation of its next frame, and holds exactly what it uses
      until that request is met. */
  ghost predicate Asking<T>(w: Writer<T>, p: Budgets.Permit) {
    p.waiting || p.granted > 0 ==>
      && w.phase.Accepting? && w.partial.None? && w.fill < |w.files|
      && p.capacity == w.used && Needed(w) > 0
      && (p.waiting ==>
            && p.capacity + p.minimum == w.used + Needed(w)
            && p.capacity + p.desired <= Max(w.target, w.used + Needed(w)))
      && (p.granted > 0 ==> w.used + Needed(w) <= p.capacity + p.granted <= Max(w.target, w.used + Needed(w)))
  }

  /** A writer that retains files for replay does not sit on capacity it has no file for, and no
      writer holds more than its window and what it uses ask for. */
  ghost predicate Tidy<T>(w: Writer<T>) {
    w.phase.Accepting? ==> (w.maxRetries > 0 && w.capacity > 0 ==> w.used > 0) && w.capacity <= Max(w.target, w.used)
  }

  ghost predicate Coupled<T>(w: Writer<T>, p: Budgets.Permit) {
    p.live && p.capacity == w.capacity && Asking(w, p) && Tidy(w)
  }

  /** Whatever the other permits of the budget do, and for however long, the writer's own coupling
      survives. */
  lemma OthersKeepCoupled<T>(b: Budgets.Budget, c: Budgets.Budget, i: nat, w: Writer<T>)
    requires Budgets.Inv(b) && Budgets.Spares(b, c, i) && i < |b.permits| && Coupled(w, b.permits[i])
    ensures Budgets.Inv(c) && i < |c.permits| && Coupled(w, c.permits[i])
  {
    hide Budgets.Spares;
    Budgets.OthersOnlyServe(b, c, i);
  }

  /** Whether polling a slot makes the writer return capacity, which cancels its request. */
  predicate Releases<T>(w: Writer<T>, index: nat, answer: Response<T>)
    requires index < |w.files|
  {
    var r := Poll(w.files[index], answer, w.phase.Draining?, w.maxRetries);
    r.Fatal? || r.released > 0 || (r.changed && Finished(r.slot))
  }

  /** A backend poll either returns capacity, cancelling the writer's request, or leaves both the
      request and what it asks for as they were. */
  lemma PollKeepsCoupled<T>(w: Writer<T>, p: Budgets.Permit, index: nat, answer: Response<T>)
    requires Writers.Inv(w) && Enabled(w, PollSlot(index, answer)) && Coupled(w, p)
    ensures var v := PollStep(w, index, answer);
            Coupled(v, if Releases(w, index, answer) then Budgets.Cancelled(p, v.capacity) else p)
  {
    hide Coupled, Poll, PollStep, Releases;
    assert FileOk(w, index);
    ReleaseCouples(w, p, index, answer);
  }

  lemma ReleaseCouples<T>(w: Writer<T>, p: Budgets.Permit, index: nat, answer: Response<T>)
    requires index < |w.files| && !w.phase.Broken? && SlotInv(w.files[index], w.maxRetries) && w.used <= w.capacity
    requires Coupled(w, p)
    ensures var v := PollStep(w, index, answer);
            Coupled(v, if Releases(w, index, answer) then Budgets.Cancelled(p, v.capacity) else p)
  {
    PollKeepsAssigned(w.files[index], answer, w.phase.Draining?, w.maxRetries);
    PollReleases(w.files[index], answer, w.phase.Draining?, w.maxRetries);
    hide Poll, SlotInv, Assigned;
  }

  /** The reservation of the next frame from a writer holding exactly what it uses: it is valid,
      and either the grant covers the frame or the writer stays coupled to its queued request. */
  lemma ReserveOutcome<T>(w: Writer<T>, p: Budgets.Permit, q: Budgets.Permit, result: Budgets.GrowResult)
    requires Writers.Inv(w) && Coupled(w, p) && w.capacity == w.used
    requires w.phase.Accepting? && w.partial.None? && w.fill < |w.files| && Fits(w) && Needed(w) > 0
    requires Budgets.GrowSeen(p, q, result, w.used + Needed(w), ReserveSize(w), w.total)
    ensures result != Budgets.Invalid
    ensures result == Budgets.Ready ==>
              && q.live
              && !q.waiting
              && q.granted == 0
              && w.used + Needed(w) <= q.capacity <= w.total
              && q.capacity <= Max(w.target, w.used + Needed(w))
    ensures result == Budgets.Pending ==> q.waiting && Coupled(w, q)
  {
  }

  /** The size a writer would like its grant to have once its next frame is reserved. */
  function ReserveSize<T>(w: Writer<T>): nat
    requires w.fill < |w.files|
  {
    Min(Max(w.target, w.used + Needed(w)), w.total)
  }

  /** How a writer that holds or is granted too little for its next frame, `minimum` in all, fares with a
      budget in which nobody waits: it is ready exactly if that much is held or free, and then gets a
      whole window's worth if that is free, and exactly the minimum if it is not. */
  ghost predicate FillsWindow(b: Budgets.Budget, i: nat, minimum: nat, target: nat, ready: bool, capacity: nat) {
    i < |b.permits| &&
    var p := b.permits[i];
    var free, goal := p.capacity + b.available, Min(Max(target, minimum), b.total);
    if p.capacity >= minimum then ready && capacity == p.capacity
    else
      b.queue == [] && p.granted == 0 ==>
        && (ready <==> minimum <= free)
        && (ready ==> capacity == if goal <= free then goal else minimum)
  }

  /** The reservation is the same whether or not unused fragments are returned before. */
  lemma ReservationFills(b: Budgets.Budget, i: nat, used: nat, minimum: nat, target: nat)
    requires Budgets.Inv(b) && Budgets.Usable(b, i) && used <= b.permits[i].capacity < minimum <= b.total
    ensures var c := Budgets.Returned(b, i, if b.permits[i].capacity > used then Some(used) else None);
            Budgets.Usable(c, i) &&
            var (d, result) := Budgets.Grow(c, i, minimum, Min(Max(target, minimum), b.total));
            i < |d.permits| && FillsWindow(b, i, minimum, target, result == Budgets.Ready, d.permits[i].capacity)
  {
    hide Budgets.Inv, Budgets.Dispatch, Budgets.Release, Budgets.Shrink;
    if b.permits[i].capacity > used {
      var m := Budgets.ShrinkOutcome(b, i, used);
    }
    if b.queue == [] && b.permits[i].granted == 0 {
      IdleShrink(b, i, used);
      NobodyWaits(b, i);
    }
  }

  /** With nobody waiting, what is returned is free at once. */
  lemma IdleShrink(b: Budgets.Budget, i: nat, used: nat)
    requires Budgets.Inv(b) && Budgets.Usable(b, i) && b.queue == [] && b.permits[i].granted == 0
    requires used <= b.permits[i].capacity
    ensures var c := Budgets.Shrink(b, i, used);
            && c.queue == [] && c.total == b.total && Budgets.Usable(c, i)
            && c.permits[i] == b.permits[i].(capacity := used, waiting := false)
            && c.available == b.available + b.permits[i].capacity - used
  {
    Budgets.DispatchEmpty(Budgets.Release(b, i, used));
  }

  lemma NobodyWaits(b: Budgets.Budget, i: nat)
    requires Budgets.Inv(b) && Budgets.Usable(b, i) && b.queue == []
    ensures !b.permits[i].waiting
  {
    assert b.permits[i].waiting ==> i in b.queue;
  }

  /** What a writer holds in any state that its own steps and those of others lead to: what it uses,
      and beyond that no more than its window allows while input is open and nothing afterwards. */
  lemma HoldsWhatItMay<T>(w: Writer<T>, p: Budgets.Permit)
    requires Writers.Inv(w) && Coupled(w, p)
    ensures w.used <= p.capacity <= (if w.phase.Accepting? then Max(w.target, w.used) else w.used)
  {
  }

  /** What a poll gives back. While input is open nothing within the window is given back unless a
      destination has closed; then, and during close, everything that is not used is. */
  lemma PollGivesBack<T>(w: Writer<T>, index: nat, answer: Response<T>)
    requires Writers.Inv(w) && Enabled(w, PollSlot(index, answer)) && !PollStep(w, index, answer).phase.Broken?
    ensures var v := PollStep(w, index, answer);
            && |v.files| == |w.files| && v.used <= w.used
            && var closed := v.files[index].state.Closed? && !w.files[index].state.Closed?;
               v.capacity == if closed || w.phase.Draining? then v.used
                             else if v.used < w.used then Min(w.capacity, Max(w.target, v.used))
                             else w.capacity
  {
    assert FileOk(w, index);
    PollKeepsAssigned(w.files[index], answer, w.phase.Draining?, w.maxRetries);
    PollReleases(w.files[index], answer, w.phase.Draining?, w.maxRetries);
    UsedByAtLeast(w.files, index);
    hide Assigned, UsedBy;
  }

  /** Once a frame is being filled, no request is outstanding and the writer uses something. */
  lemma FillingUsesCapacity<T>(w: Writer<T>)
    requires Writers.Inv(w) && w.partial.Some?
    ensures w.used > 0
  {
    assert FileOk(w, w.fill);
    UsedByAtLeast(w.files, w.fill);
  }

  lemma AllocateCoupled<T>(w: Writer<T>, p: Budgets.Permit, empty: Partial<T>)
    requires Writers.Inv(w) && Enabled(w, Allocate(empty))
    requires p.live && !p.waiting && p.granted == 0 && p.capacity == w.capacity
    requires w.capacity <= Max(w.target, w.used + Needed(w))
    ensures var v := AllocateStep(w, empty);
            Coupled(v, if v.phase.Broken? then Budgets.Cancelled(p, 0) else p)
  {
    AllocateKeepsInv(w, empty);
    var v := AllocateStep(w, empty);
    if v.partial.Some? {
      FillingUsesCapacity(v);
    }
  }

  lemma FillKeepsCoupled<T>(w: Writer<T>, p: Budgets.Permit, result: FillResult<T>)
    requires Writers.Inv(w) && Coupled(w, p) && w.partial.Some?
    ensures var v := FillStep(w, result);
            Coupled(v, if v.phase.Broken? then Budgets.Cancelled(p, 0) else p)
  {
  }

  lemma AdmitCoupled<T>(w: Writer<T>, p: Budgets.Permit, file: Descriptor)
    requires Coupled(w, p)
    ensures Coupled(Admit(w, file), p)
  {
  }

  /** Popping the head moves the fill slot but not what is asked for it. */
  lemma TakeHeadCoupled<T>(w: Writer<T>, p: Budgets.Permit)
    requires Writers.Inv(w) && !w.phase.Broken? && HeadDone(w) && Coupled(w, p)
    ensures Coupled(TakeHead(w), p)
  {
    assert FileOk(w, 0);
  }

  lemma CloseCoupled<T>(w: Writer<T>, p: Budgets.Permit)
    requires Writers.Inv(w) && w.phase.Accepting? && Coupled(w, p)
    ensures var v := CloseStep(w); Coupled(v, Budgets.Cancelled(p, v.used))
  {
  }

  lemma WindowCoupled<T>(w: Writer<T>, p: Budgets.Permit, target: nat, maxActive: nat)
    requires Coupled(w, p)
    ensures Coupled(WindowStep(w, target, maxActive), Budgets.Cancelled(p, Min(p.capacity, Max(target, w.used))))
  {
  }

  /** No frame is being filled and no file is half full: the writer waits for others only. */
  ghost predicate Resting<T>(w: Writer<T>) {
    w.partial.None? && (w.phase.Accepting? && w.fill < |w.files| ==> w.files[w.fill].filled == 0)
  }

  /** A queued replay writer is resting and holds exactly `used`, every unit of it reserved by a
      completely filled file that is not closed, so that it needs no more budget to finish. */
  lemma QueuedWriterRests<T>(w: Writer<T>, p: Budgets.Permit)
    requires Writers.Inv(w) && w.maxRetries > 0 && Coupled(w, p) && p.waiting
    ensures Resting(w) && w.capacity == w.used == UsedBy(w.files)
    ensures forall k :: 0 <= k < |w.files| && Weight(w.files[k]) > 0 ==>
              && w.files[k].filled == w.files[k].capacity == Weight(w.files[k])
              && Finishable(w.files[k], false)
  {
    forall k | 0 <= k < |w.files| && Weight(w.files[k]) > 0
      ensures w.files[k].filled == w.files[k].capacity == Weight(w.files[k]) && Finishable(w.files[k], false)
    {
      assert FileOk(w, k);
    }
  }

  lemma HeldByFinishable<T>(w: Writer<T>) returns (k: nat)
    requires Writers.Inv(w) && w.maxRetries > 0 && Resting(w) && Tidy(w) && w.capacity > 0
    ensures k < |w.files| && Finishable(w.files[k], w.phase.Draining?)
  {
    k := SomeSlotWeighs(w.files);
    assert FileOk(w, k);
  }
}
