/** The shared budget as it is stored: one mutable state under a lock, a request cell per permit,
    and permits holding their own capacity. Every method is one critical section and is proved
    to compute the corresponding function of `Budgets`. */
module FrameBudgets {
  import opened Naturals
  import opened Segmentation
  import opened Budgets

  /** The cell shared between a permit and the queue; `live` is false once its permit is dropped. */
  class Request {
    ghost const id: nat
    var minimum: nat
    var desired: nat
    var granted: nat
    var waiting: bool
    var live: bool

    constructor (ghost id: nat)
      ensures this.id == id
      ensures minimum == 0 && desired == 0 && granted == 0 && !waiting && live
    {
      this.id := id;
      minimum, desired, granted, waiting, live := 0, 0, 0, false, true;
    }
  }

  class FrameBudget {
    const total: nat
    var available: nat
    var waiters: seq<Request>
    ghost var permits: seq<FramePermit>

    ghost function Cells(): set<Request>
      reads this`permits
    {
      set p | p in permits :: p.request
    }

    ghost function View(): Budget
      reads this, permits, Cells()
    {
      Budget(total, available,
             seq(|permits|, k requires 0 <= k < |permits| reads this, permits, Cells() => permits[k].View()),
             Ids(waiters))
    }

    /** Permit `k` and its cell are numbered `k`; the queue refers to cells of known permits. */
    ghost predicate Wired()
      reads this, permits
    {
      && (forall k :: 0 <= k < |permits| ==> permits[k].budget == this && permits[k].request.id == k)
      && (forall k :: 0 <= k < |waiters| ==> waiters[k].id < |permits| && permits[waiters[k].id].request == waiters[k])
    }

    ghost predicate Valid()
      reads this, permits, Cells()
    {
      Wired() && Inv(View())
    }

    constructor (total: nat)
      ensures Valid() && View() == Fresh(total)
    {
      this.total := total;
      available := total;
      waiters := [];
      permits := [];
    }

    /** Create an empty local permit. */
    method NewPermit() returns (permit: FramePermit)
      requires Valid()
      modifies this`permits
      ensures permit.Valid() && permit.budget == this
      ensures fresh(permit) && fresh(permit.request) && permit.View() == NEW_PERMIT
      ensures permits == old(permits) + [permit]
      ensures View() == Create(old(View()))
    {
      CreateOutcome(View());
      var request := new Request(|permits|);
      permit := new FramePermit(this, request);
      permits := permits + [permit];
      assert View().permits == old(View()).permits + [NEW_PERMIT];
    }

    /** Discard the first queue entry. */
    method SkipHead()
      requires Wired() && waiters != []
      modifies this`waiters
      ensures Wired()
      ensures View() == old(View().(queue := View().queue[1..])) && |waiters| == |old(waiters)| - 1
    {
      waiters := waiters[1..];
    }

    /** Reserve the grant of the first request, before anyone is woken. */
    method ServeHead()
      requires Wired() && waiters != [] && waiters[0].minimum <= available
      modifies this`available, this`waiters, waiters[0]
      ensures Wired()
      ensures View() == old(Serve(View())) && |waiters| == |old(waiters)| - 1
    {
      var request := waiters[0];
      assert View().permits[request.id] == permits[request.id].View();
      var grant := if available >= request.desired then request.desired else request.minimum;
      available := available - grant;
      request.granted := grant;
      request.waiting := false;
      waiters := waiters[1..];
    }

    /** Serve the queue from its head while the head fits. */
    method Dispatch() returns (wakes: seq<Request>)
      requires Wired()
      modifies this`available, this`waiters, Cells()
      ensures Wired()
      ensures View() == Budgets.Dispatch(old(View())) && Ids(wakes) == Woken(old(View()))
    {
      hide Budgets.Dispatch, Woken, Serve;
      wakes := [];
      while waiters != []
        invariant Wired()
        invariant Budgets.Dispatch(View()) == Budgets.Dispatch(old(View()))
        invariant Ids(wakes) + Woken(View()) == Woken(old(View()))
        decreases |waiters|
      {
        DispatchUnfolds(View());
        var request := waiters[0];
        assert View().permits[request.id] == permits[request.id].View();
        if !request.live || !request.waiting {
          SkipHead();
        } else {
          if available < request.minimum {
            return;
          }
          ServeHead();
          wakes := wakes + [request];
          assert Ids(wakes) == Ids(wakes[..|wakes| - 1]) + [request.id];
        }
      }
      DispatchEmpty(View());
    }
  }

  class FramePermit {
    const budget: FrameBudget
    const request: Request
    var capacity: nat

    ghost function View(): Permit
      reads this, request
    {
      Permit(capacity, request.minimum, request.desired, request.granted, request.waiting, request.live)
    }

    /** This permit is one of its budget's permits and has not been dropped. */
    ghost predicate Linked()
      reads this, budget, budget.permits, budget.Cells()
    {
      && budget.Wired()
      && request.id < |budget.permits| && budget.permits[request.id] == this
      && request.live
    }

    ghost predicate Valid()
      reads this, budget, budget.permits, budget.Cells()
    {
      Linked() && Inv(budget.View())
    }

    constructor (budget: FrameBudget, request: Request)
      ensures this.budget == budget && this.request == request && capacity == 0
    {
      this.budget := budget;
      this.request := request;
      capacity := 0;
    }

    /** What this permit's own changes of its fields, its cell and `available` do to the view. */
    twostate lemma OwnChange()
      requires old(Linked()) && budget.Wired() && budget.permits == old(budget.permits)
      requires budget.waiters == old(budget.waiters)
      requires forall k :: 0 <= k < |budget.permits| && k != request.id ==>
                 unchanged(budget.permits[k]) && unchanged(budget.permits[k].request)
      ensures budget.View() == old(budget.View()).(available := budget.available,
                                                   permits := old(budget.View()).permits[request.id := View()])
      ensures old(budget.View()).permits[request.id] == old(View())
    {
    }

    /** All that has happened is that the permit gave back what it held above `capacity`, if that. */
    twostate predicate GaveBack(capacity: Option<nat>)
      reads this, request, budget, budget.permits, budget.Cells()
    {
      match capacity
      case None => View() == old(View()) && budget.View() == old(budget.View())
      case Some(keep) =>
        && View() == Cancelled(old(View()), keep)
        && budget.View() == Returned(old(budget.View()), request.id, capacity)
    }

    /** A permit stays valid while nothing of its budget changes. */
    twostate lemma Undisturbed()
      requires old(Valid())
      requires unchanged(this) && unchanged(budget) && unchanged(old(budget.permits)) && unchanged(old(budget.Cells()))
      ensures Valid() && GaveBack(None) && View() == old(View()) && budget.View() == old(budget.View())
    {
    }

    /** Grow to at least `minimum`, preferably `desired`, or wait in the queue. */
    method PollGrow(minimum: nat, desired: nat) returns (result: GrowResult)
      requires Valid()
      modifies this`capacity, budget`available, budget`waiters, request
      ensures Valid()
      ensures (budget.View(), result) == Grow(old(budget.View()), request.id, minimum, desired)
      ensures GrowSeen(old(View()), View(), result, minimum, desired, budget.total)
    {
      GrowKeepsInv(budget.View(), request.id, minimum, desired);
      GrowAnswer(budget.View(), request.id, minimum, desired);
      assert budget.View().permits[request.id] == View();
      result := TryGrow(minimum, desired);
      assert budget.View().permits[request.id] == View();
    }

    method TryGrow(minimum: nat, desired: nat) returns (result: GrowResult)
      requires Linked()
      modifies this`capacity, budget`available, budget`waiters, request
      ensures Linked()
      ensures (budget.View(), result) == Grow(old(budget.View()), request.id, minimum, desired)
    {
      if minimum > desired || desired > budget.total {
        return Invalid;
      }
      OwnChange();
      if capacity >= minimum {
        return Ready;
      }
      Claim();
      if capacity >= minimum {
        return Ready;
      }
      if request.waiting {
        return Pending;
      }
      var need, want := minimum - capacity, desired - capacity;
      if budget.waiters == [] && budget.available >= need {
        var grant := if budget.available >= want then want else need;
        Take(grant);
        assert budget.View().permits == old(budget.View()).permits[request.id := View()];
        return Ready;
      }
      Ask(need, want);
      assert budget.View().permits == old(budget.View()).permits[request.id := View()];
      Enqueue();
      return Pending;
    }

    /** Turn a reserved grant into capacity. */
    method Claim()
      requires Linked()
      modifies this`capacity, request`granted
      ensures Linked()
      ensures capacity == old(capacity + request.granted) && budget.available == old(budget.available)
      ensures var b, i, p := old(budget.View()), request.id, old(View());
              budget.View() == b.(permits := b.permits[i := p.(capacity := p.capacity + p.granted, granted := 0)])
      ensures View() == old(View()).(capacity := capacity, granted := 0)
    {
      capacity := capacity + request.granted;
      request.granted := 0;
      OwnChange();
    }

    /** Take free capacity at once. */
    method Take(grant: nat)
      requires Linked() && grant <= budget.available
      modifies this`capacity, budget`available
      ensures Linked()
      ensures var b, i, p := old(budget.View()), request.id, old(View());
              budget.View() == b.(available := b.available - grant,
                  permits := b.permits[i := p.(capacity := p.capacity + grant)])
      ensures View() == old(View()).(capacity := capacity) && capacity == old(capacity) + grant
    {
      capacity := capacity + grant;
      budget.available := budget.available - grant;
      OwnChange();
    }

    method Ask(minimum: nat, desired: nat)
      requires Linked()
      modifies request`minimum, request`desired, request`waiting
      ensures Linked()
      ensures var b, i, p := old(budget.View()), request.id, old(View());
              budget.View()
              == b.(permits := b.permits[i := p.(minimum := minimum, desired := desired, waiting := true)])
      ensures View() == old(View()).(minimum := minimum, desired := desired, waiting := true)
    {
      request.minimum := minimum;
      request.desired := desired;
      request.waiting := true;
      OwnChange();
    }

    method Enqueue()
      requires Linked()
      modifies budget`waiters
      ensures Linked()
      ensures budget.View() == old(budget.View()).(queue := old(budget.View()).queue + [request.id])
    {
      budget.waiters := budget.waiters + [request];
      assert Ids(budget.waiters) == Ids(old(budget.waiters)) + [request.id];
    }

    /** Remove this permit's entries from the queue. */
    method Withdraw()
      requires Linked()
      modifies budget`waiters
      ensures Linked()
      ensures budget.View() == old(budget.View()).(queue := Without(old(budget.View()).queue, request.id))
    {
      WithoutIds(budget.waiters, request);
      budget.waiters := Without(budget.waiters, request);
    }

    /** The bookkeeping of `ShrinkTo` up to the dispatch. */
    method ReleaseAbove(capacity: nat)
      requires Linked()
      modifies this`capacity, budget`available, budget`waiters, request
      ensures Linked()
      ensures budget.View() == Release(old(budget.View()), request.id, capacity)
    {
      request.waiting := false;
      budget.available := budget.available + request.granted;
      request.granted := 0;
      var keep := Min(this.capacity, capacity);
      budget.available := budget.available + (this.capacity - keep);
      this.capacity := keep;
      OwnChange();
      Withdraw();
    }

    /** Return capacity above `capacity` and cancel any outstanding growth request. */
    method ShrinkTo(capacity: nat)
      requires Valid()
      modifies this`capacity, budget`available, budget`waiters, budget.Cells()
      ensures Valid()
      ensures budget.View() == Shrink(old(budget.View()), request.id, capacity)
      ensures GaveBack(Some(capacity)) && View() == Cancelled(old(View()), capacity)
    {
      ghost var before := budget.View();
      assert before.permits[request.id] == View();
      ghost var m := ShrinkOutcome(before, request.id, capacity);
      ReleaseAbove(capacity);
      var wakes := budget.Dispatch();
      assert budget.View().permits[request.id] == View();
    }

    /** Dropping a permit returns everything it holds and abandons its request cell. */
    method Drop()
      requires Valid()
      modifies this`capacity, budget`available, budget`waiters, budget.Cells()
      ensures budget.Valid()
      ensures budget.View() == Retire(old(budget.View()), request.id)
      ensures View() == Permit(0, request.minimum, request.desired, 0, false, false)
    {
      ghost var m := RetireOutcome(budget.View(), request.id);
      ShrinkTo(0);
      Abandon();
    }

    method Abandon()
      requires Linked()
      modifies request`live
      ensures budget.Wired()
      ensures var b, i := old(budget.View()), request.id;
              budget.View() == b.(permits := b.permits[i := b.permits[i].(live := false)])
    {
      request.live := false;
      OwnChange();
    }
  }

  ghost function Ids(waiters: seq<Request>): seq<nat> {
    seq(|waiters|, k requires 0 <= k < |waiters| => waiters[k].id)
  }

  lemma {:induction false} WithoutIds(waiters: seq<Request>, request: Request)
    requires forall k :: 0 <= k < |waiters| && waiters[k].id == request.id ==> waiters[k] == request
    ensures Ids(Without(waiters, request)) == Without(Ids(waiters), request.id)
  {
    if waiters != [] {
      WithoutIds(waiters[1..], request);
      assert Ids(waiters)[1..] == Ids(waiters[1..]);
      IdsCons(waiters[0], Without(waiters[1..], request));
    }
  }

  lemma IdsCons(head: Request, tail: seq<Request>)
    ensures Ids([head] + tail) == [head.id] + Ids(tail)
  {
  }
}
